/** Virtual recipe file names: the printer and the parser of `mc:<mc>:virtual:<class>:<file>`. */
module VirtualNames {
  import opened Sequences

  datatype Recipe = Recipe(fn: string, cls: string, mc: string)

  const MC := "mc:"
  const VIRTUAL := "virtual:"

  predicate HasMulticonfig(name: string) {
    MC <= name && Count(name, ':') >= 2
  }

  /** `virtualfn2realfn` */
  function Parse(virtualfn: string): Recipe {
    var (mc, name) :=
      if HasMulticonfig(virtualfn) then
        SplitThree(virtualfn);
        var parts := SplitMax(virtualfn, ':', 2);
        (parts[1], parts[2])
      else ("", virtualfn);
    var (fn, cls) := ParseClass(name);
    Recipe(fn, cls, mc)
  }

  /** The part of `virtualfn2realfn` after the multiconfig: file and class. */
  function ParseClass(name: string): (string, string) {
    if VIRTUAL <= name then
      SplitTwo(name);
      var elems := Split(name, ':');
      (elems[|elems| - 1], Join(elems[1..|elems| - 1], ':'))
    else
      (name, "")
  }

  /** `realfn2virtual` */
  function Print(realfn: string, cls: string, mc: string): string {
    var name := if cls != "" then VIRTUAL + cls + ":" + realfn else realfn;
    if mc != "" then MC + mc + ":" + name else name
  }

  /** `variant2virtual` */
  function VariantName(realfn: string, variant: string): string {
    if variant == "" then realfn
    else if HasMulticonfig(variant) then
      SplitCount(variant, ':');
      var elems := Split(variant, ':');
      if elems[2] != "" then MC + elems[1] + ":" + VIRTUAL + Join(elems[2..], ':') + ":" + realfn
      else MC + elems[1] + ":" + realfn
    else VIRTUAL + variant + ":" + realfn
  }

  lemma {:induction false} SplitCount(s: string, sep: char)
    ensures |Split(s, sep)| == Count(s, sep) + 1
  {
    if s != [] {
      SplitCount(s[1..], sep);
    }
  }

  lemma SplitThree(name: string)
    requires HasMulticonfig(name)
    ensures |SplitMax(name, ':', 2)| == 3
    ensures exists mc, rest :: ':' !in mc && name == MC + mc + ":" + rest && SplitMax(name, ':', 2) == ["mc", mc, rest]
  {
    assert name == "mc" + [':'] + name[3..];
    CountConcat("mc" + [':'], name[3..], ':');
    assert Count("mc" + [':'], ':') == 1 by {
      CountConcat("mc", [':'], ':');
      CountMember("mc", ':');
    }
    CountMember(name[3..], ':');
    var mc, rest := FirstOccurrence(name[3..], ':');
    assert name == MC + mc + ":" + rest;
    SplitAfterMc(mc, rest);
  }

  lemma SplitAfterMc(mc: string, rest: string)
    requires ':' !in mc
    ensures SplitMax(MC + mc + ":" + rest, ':', 2) == ["mc", mc, rest]
    ensures HasMulticonfig(MC + mc + ":" + rest)
  {
    var name := MC + mc + ":" + rest;
    var tail := mc + [':'] + rest;
    assert name == "mc" + [':'] + tail;
    SplitMaxFirst("mc", tail, ':', 2);
    SplitMaxFirst(mc, rest, ':', 1);
    CountConcat("mc" + [':'], tail, ':');
    CountConcat("mc", [':'], ':');
    CountConcat(mc + [':'], rest, ':');
    CountConcat(mc, [':'], ':');
  }

  lemma SplitTwo(name: string)
    requires VIRTUAL <= name
    ensures |Split(name, ':')| >= 2
  {
    assert name == "virtual" + [':'] + name[8..];
    SplitFirst("virtual", name[8..], ':');
  }

  /** Parsing a name without a multiconfig prefix. */
  lemma ParseVirtual(cls: string, fn: string)
    requires ':' !in fn
    ensures var elems := Split(VIRTUAL + cls + ":" + fn, ':');
            |elems| >= 2 && elems[|elems| - 1] == fn && Join(elems[1..|elems| - 1], ':') == cls
  {
    var name := VIRTUAL + cls + ":" + fn;
    assert name == "virtual" + [':'] + (cls + [':'] + fn);
    SplitFirst("virtual", cls + [':'] + fn, ':');
    SplitLast(cls, fn, ':');
    var elems := Split(name, ':');
    assert elems == ["virtual"] + Split(cls, ':') + [fn];
    assert elems[1..|elems| - 1] == Split(cls, ':');
    SplitJoin(cls, ':');
  }

  /** Exactly the names for which printing loses nothing. */
  predicate Printable(r: Recipe) {
    && ':' !in r.mc
    && (if r.cls != "" then ':' !in r.fn
        else !(VIRTUAL <= r.fn) && (r.mc == "" ==> !HasMulticonfig(r.fn)))
  }

  /** Parsing the printed name returns the recipe exactly when it is printable; the class may hold colons. */
  lemma RoundTripExactly(r: Recipe)
    ensures Parse(Print(r.fn, r.cls, r.mc)) == r <==> Printable(r)
  {
    var name := if r.cls != "" then VIRTUAL + r.cls + ":" + r.fn else r.fn;
    ClassRoundTrip(r.fn, r.cls);
    if r.mc == "" {
      if HasMulticonfig(name) {
        ParseShortens(name);
      }
    } else if ':' in r.mc {
      SplitPrefix(r.mc, name);
    } else {
      SplitAfterMc(r.mc, name);
    }
  }

  /** A file whose name looks like that of a variant does not come back. */
  lemma MistakenFile()
    ensures var r := Recipe("virtual:native:a.bb", "", ""); Parse(Print(r.fn, r.cls, r.mc)) != r
  {
    RoundTripExactly(Recipe("virtual:native:a.bb", "", ""));
  }

  lemma SplitPrefix(mc: string, name: string)
    requires ':' in mc
    ensures Parse(MC + mc + ":" + name).mc != mc
  {
    var a, b := FirstOccurrence(mc, ':');
    assert MC + mc + ":" + name == MC + a + ":" + (b + ":" + name);
    SplitAfterMc(a, b + ":" + name);
  }

  lemma ClassRoundTrip(fn: string, cls: string)
    ensures var name := if cls != "" then VIRTUAL + cls + ":" + fn else fn;
            ParseClass(name) == (fn, cls) <==> if cls != "" then ':' !in fn else !(VIRTUAL <= fn)
  {
    var name := if cls != "" then VIRTUAL + cls + ":" + fn else fn;
    if VIRTUAL <= name {
      SplitTwo(name);
      SplitPartsFree(name, ':');
      var elems := Split(name, ':');
      assert elems[|elems| - 1] in elems;
      if cls == "" {
        assert name[7] == ':';
      } else if ':' !in fn {
        ParseVirtual(cls, fn);
      }
    }
  }

  /** Parsing a name that has a multiconfig prefix drops something of it. */
  lemma ParseShortens(name: string)
    requires HasMulticonfig(name)
    ensures Parse(name).fn != name
  {
    SplitThree(name);
    var rest := SplitMax(name, ':', 2)[2];
    if VIRTUAL <= rest {
      SplitTwo(rest);
      SplitPartsFree(rest, ':');
      var elems := Split(rest, ':');
      assert elems[|elems| - 1] in elems;
      assert name[2] == ':';
    }
  }

  /** Two printable recipes with one name are the same recipe. */
  lemma PrintInjective(r: Recipe, r': Recipe)
    requires Printable(r) && Printable(r')
    requires Print(r.fn, r.cls, r.mc) == Print(r'.fn, r'.cls, r'.mc)
    ensures r == r'
  {
    RoundTripExactly(r);
    RoundTripExactly(r');
  }

  /** What `variant2virtual` makes of a variant `mc:<m>:<c>`. */
  lemma VariantUnfold(fn: string, m: string, c: string)
    requires ':' !in m
    ensures VariantName(fn, MC + m + ":" + c) ==
            if c == "" || c[0] == ':' then MC + m + ":" + fn
            else MC + m + ":" + (VIRTUAL + c + ":" + fn)
  {
    var variant := MC + m + ":" + c;
    SplitAfterMc(m, c);
    SplitCount(variant, ':');
    assert variant == "mc" + [':'] + (m + [':'] + c);
    SplitFirst("mc", m + [':'] + c, ':');
    SplitFirst(m, c, ':');
    var elems := Split(variant, ':');
    assert elems == ["mc", m] + Split(c, ':');
    assert elems[2..] == Split(c, ':');
    SplitJoin(c, ':');
    if c != "" && c[0] != ':' {
      assert MC + m + ":" + VIRTUAL + c + ":" + fn == MC + m + ":" + (VIRTUAL + c + ":" + fn);
    }
  }

  /**
   A variant `mc:<m>:<c>` names the same recipe as (fn, c, m), exactly when m is there and c does not start with
   ':'.
   */
  lemma VariantAgreesExactly(fn: string, m: string, c: string)
    requires ':' !in m
    ensures VariantName(fn, MC + m + ":" + c) == Print(fn, c, m)
       <==> m != "" && (c == "" || c[0] != ':')
  {
    VariantUnfold(fn, m, c);
    var got := VariantName(fn, MC + m + ":" + c);
    var want := Print(fn, c, m);
    if m == "" {
      if c == "" {
        assert |got| == |fn| + 4;
      } else {
        assert got[0] == 'm' && want[0] == 'v';
      }
    } else if c != "" && c[0] == ':' {
      assert |want| > |got|;
    }
  }

  /** A variant without a multiconfig is a class: it names what printing gives, and is found back. */
  lemma PlainVariant(fn: string, v: string)
    requires !HasMulticonfig(v)
    ensures VariantName(fn, v) == Print(fn, v, "")
    ensures v != "" && ':' !in fn ==> Parse(VariantName(fn, v)) == Recipe(fn, v, "")
    ensures v == "" && Printable(Recipe(fn, "", "")) ==> Parse(VariantName(fn, v)) == Recipe(fn, "", "")
  {
    RoundTripExactly(Recipe(fn, v, ""));
  }

  /** The names as they are written, and read again. */
  lemma NamesAre()
    ensures Print("a.bb", "native", "m") == "mc:m:virtual:native:a.bb"
    ensures Print("a.bb", "native", "") == "virtual:native:a.bb" && Print("a.bb", "", "m") == "mc:m:a.bb"
    ensures Parse("mc:m:virtual:native:a.bb") == Recipe("a.bb", "native", "m")
  {
    RoundTripExactly(Recipe("a.bb", "native", "m"));
    assert Printable(Recipe("a.bb", "native", "m"));
    assert Print("a.bb", "native", "m") == "mc:m:virtual:native:a.bb";
  }

  /** An empty multiconfig is written into the name by one and not by the other. */
  lemma EmptyMulticonfig()
    ensures VariantName("a.bb", MC + "" + ":" + "native") != Print("a.bb", "native", "")
  {
    VariantAgreesExactly("a.bb", "", "native");
  }

  /** A variant name of a colon-free file is the file itself, or ends in ':' and the file. */
  lemma VariantNameShape(fn: string, variant: string)
    ensures VariantName(fn, variant) == fn <==> variant == ""
    ensures variant != "" ==> exists p :: VariantName(fn, variant) == p + [':'] + fn
  {
    if variant != "" {
      if HasMulticonfig(variant) {
        SplitCount(variant, ':');
        var elems := Split(variant, ':');
        if elems[2] != "" {
          var p := MC + elems[1] + ":" + VIRTUAL + Join(elems[2..], ':');
          assert VariantName(fn, variant) == p + [':'] + fn;
        } else {
          var p := MC + elems[1];
          assert VariantName(fn, variant) == p + [':'] + fn;
        }
      } else {
        var p := VIRTUAL + variant;
        assert VariantName(fn, variant) == p + [':'] + fn;
      }
    }
  }

  /** Variants of two different colon-free files never share a name. */
  lemma VariantsDisjoint(fn: string, v: string, fn': string, v': string)
    requires ':' !in fn && ':' !in fn'
    requires VariantName(fn, v) == VariantName(fn', v')
    ensures fn == fn'
  {
    VariantNameShape(fn, v);
    VariantNameShape(fn', v');
    if v != "" && v' != "" {
      var p :| VariantName(fn, v) == p + [':'] + fn;
      var p' :| VariantName(fn', v') == p' + [':'] + fn';
      SplitLast(p, fn, ':');
      SplitLast(p', fn', ':');
      var elems := Split(VariantName(fn, v), ':');
      assert elems[|elems| - 1] == fn && elems[|elems| - 1] == fn';
    }
  }
}
