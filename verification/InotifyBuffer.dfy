/**
 Decoding of the inotify event buffer: records of a 16-byte header (wd, mask, cookie, name length, all
 little-endian 32-bit) and a name padded with NULs; and the coalescing of events that are printed alike.
 */
module InotifyBuffer {
  import opened Sequences
  import opened Coalescing
  import opened PrintedEvents

  datatype Raw = Raw(wd: int, mask: nat, cookie: nat, name: seq<Byte>)

  const WORD := 0x1_0000_0000
  const NUL: Byte := 0

  predicate Fits(r: Raw) {
    -0x8000_0000 <= r.wd < 0x8000_0000 && r.mask < WORD && r.cookie < WORD && |r.name| < WORD
  }

  // ---- records ----

  function PutWord(n: nat): (b: seq<Byte>)
    requires n < WORD
    ensures |b| == 4
  {
    [n % 256, n / 256 % 256, n / 65536 % 256, n / 16777216]
  }

  function GetWord(b: seq<Byte>): (n: nat)
    requires |b| == 4
    ensures n < WORD
  {
    b[0] as int + 256 * b[1] as int + 65536 * b[2] as int + 16777216 * b[3] as int
  }

  /** The signed reading of a word. */
  function Signed(n: nat): int {
    if n < 0x8000_0000 then n else n - WORD
  }

  function Encode(r: Raw): seq<Byte>
    requires Fits(r)
  {
    PutWord(if r.wd < 0 then r.wd + WORD else r.wd) + PutWord(r.mask) + PutWord(r.cookie) + PutWord(|r.name|) + r.name
  }

  function EncodeAll(rs: seq<Raw>): seq<Byte>
    requires forall r :: r in rs ==> Fits(r)
  {
    if |rs| == 0 then [] else Encode(rs[0]) + EncodeAll(rs[1..])
  }

  /** The record at the front of the buffer, and what follows it; None if the buffer is cut short (struct.error). */
  function TakeRecord(b: seq<Byte>): (r: Option<(Raw, seq<Byte>)>)
    ensures r.Some? ==> Fits(r.value.0) && |r.value.1| < |b|
  {
    if |b| < 16 then None
    else
      var len := GetWord(b[12..16]);
      if |b| < 16 + len then None
      else Some((Raw(Signed(GetWord(b[0..4])), GetWord(b[4..8]), GetWord(b[8..12]), b[16..16 + len]), b[16 + len..]))
  }

  /** The whole records of a buffer, and the bytes after the last of them. */
  function TakeAll(b: seq<Byte>): (seq<Raw>, seq<Byte>)
    decreases |b|
  {
    var r := TakeRecord(b);
    if r.None? then ([], b)
    else var (rs, rest) := TakeAll(r.value.1); ([r.value.0] + rs, rest)
  }

  lemma WordRoundTrip(n: nat)
    requires n < WORD
    ensures GetWord(PutWord(n)) == n
  {
    var a, b, c := n / 256, n / 65536, n / 16777216;
    assert n == 256 * a + n % 256;
    assert a == 256 * b + a % 256;
    assert b == 256 * c + n / 65536 % 256;
  }

  lemma WordInjective(b: seq<Byte>)
    requires |b| == 4
    ensures PutWord(GetWord(b)) == b
  {
    var n := GetWord(b);
    assert n / 256 == b[1] as int + 256 * b[2] as int + 65536 * b[3] as int;
    assert n / 65536 == b[2] as int + 256 * b[3] as int;
    assert n / 16777216 == b[3] as int;
  }

  /** The record in front of anything is taken as it was written. */
  lemma TakeEncoded(r: Raw, rest: seq<Byte>)
    requires Fits(r)
    ensures TakeRecord(Encode(r) + rest) == Some((r, rest))
  {
    var wd := if r.wd < 0 then r.wd + WORD else r.wd;
    var b := Encode(r) + rest;
    assert b[0..4] == PutWord(wd) && b[4..8] == PutWord(r.mask) && b[8..12] == PutWord(r.cookie)
           && b[12..16] == PutWord(|r.name|);
    WordRoundTrip(wd);
    WordRoundTrip(r.mask);
    WordRoundTrip(r.cookie);
    WordRoundTrip(|r.name|);
    assert b[16..16 + |r.name|] == r.name && b[16 + |r.name|..] == rest;
  }

  /** What was taken, written again, is what was there. */
  lemma EncodeTaken(b: seq<Byte>)
    requires TakeRecord(b).Some?
    ensures var (r, rest) := TakeRecord(b).value; Encode(r) + rest == b
  {
    var (r, rest) := TakeRecord(b).value;
    WordInjective(b[0..4]);
    WordInjective(b[4..8]);
    WordInjective(b[8..12]);
    WordInjective(b[12..16]);
    assert b == b[0..4] + b[4..8] + b[8..12] + b[12..16] + b[16..16 + |r.name|] + b[16 + |r.name|..];
  }

  /** Decoding inverts encoding, with nothing left over. */
  lemma {:induction false} TakeAllEncoded(rs: seq<Raw>)
    requires forall r :: r in rs ==> Fits(r)
    ensures TakeAll(EncodeAll(rs)) == (rs, [])
  {
    if rs != [] {
      var first, rest := rs[0], rs[1..];
      assert rs == [first] + rest;
      TakeAllEncoded(rest);
      TakeAllOne(first, EncodeAll(rest), rest);
    }
  }

  lemma TakeAllOne(first: Raw, b: seq<Byte>, rest: seq<Raw>)
    requires Fits(first) && TakeAll(b) == (rest, [])
    ensures TakeAll(Encode(first) + b) == ([first] + rest, [])
  {
    TakeEncoded(first, b);
  }

  /** What was decoded, written again, is what was consumed; so only encodings are decoded without a rest. */
  lemma {:induction false} EncodeAllTaken(b: seq<Byte>)
    ensures var (rs, rest) := TakeAll(b);
            (forall r :: r in rs ==> Fits(r)) && EncodeAll(rs) + rest == b
    decreases |b|
  {
    var r := TakeRecord(b);
    if r.Some? {
      EncodeTaken(b);
      EncodeAllTaken(r.value.1);
      var (rs, rest) := TakeAll(r.value.1);
      assert ([r.value.0] + rs)[1..] == rs;
      assert Encode(r.value.0) + (EncodeAll(rs) + rest) == Encode(r.value.0) + EncodeAll(rs) + rest;
    }
  }

  /** A record byte for byte: descriptor 1, a directory made, no cookie, and sixteen bytes for the name. */
  lemma SampleRecord(name: seq<Byte>, rest: seq<Byte>)
    requires |name| == 16
    ensures TakeRecord([1, 0, 0, 0, 0, 1, 0, 64, 7, 2, 0, 0, 16, 0, 0, 0] + name + rest) ==
            Some((Raw(1, 0x4000_0100, 519, name), rest))
    ensures TakeRecord([255, 255, 255, 255, 0, 64, 0, 0, 0, 0, 0, 0, 0, 0, 0, 0] + rest) ==
            Some((Raw(-1, 0x4000, 0, []), rest))
  {
    var h, g := [1, 0, 0, 0, 0, 1, 0, 64, 7, 2, 0, 0, 16, 0, 0, 0],
        [255, 255, 255, 255, 0, 64, 0, 0, 0, 0, 0, 0, 0, 0, 0, 0];
    FourWords([1, 0, 0, 0], [0, 1, 0, 64], [7, 2, 0, 0], [16, 0, 0, 0]);
    assert h == [1, 0, 0, 0] + [0, 1, 0, 64] + [7, 2, 0, 0] + [16, 0, 0, 0];
    HeadTaken(h, name, rest);
    FourWords([255, 255, 255, 255], [0, 64, 0, 0], [0, 0, 0, 0], [0, 0, 0, 0]);
    assert g == [255, 255, 255, 255] + [0, 64, 0, 0] + [0, 0, 0, 0] + [0, 0, 0, 0];
    HeadTaken(g, [], rest);
    assert g + [] + rest == g + rest;
  }

  lemma FourWords(a: seq<Byte>, b: seq<Byte>, c: seq<Byte>, d: seq<Byte>)
    requires |a| == |b| == |c| == |d| == 4
    ensures var h := a + b + c + d; |h| == 16 && h[0..4] == a && h[4..8] == b && h[8..12] == c && h[12..16] == d
  {
  }

  lemma HeadTaken(h: seq<Byte>, name: seq<Byte>, rest: seq<Byte>)
    requires |h| == 16 && GetWord(h[12..16]) == |name|
    ensures TakeRecord(h + name + rest) ==
            Some((Raw(Signed(GetWord(h[0..4])), GetWord(h[4..8]), GetWord(h[8..12]), name), rest))
  {
    var b := h + name + rest;
    assert b[0..4] == h[0..4] && b[4..8] == h[4..8] && b[8..12] == h[8..12] && b[12..16] == h[12..16];
    assert b[16..16 + |name|] == name && b[16 + |name|..] == rest;
  }

  // ---- names ----

  /** `bname.decode()` and the stripping of trailing NULs in _RawEvent; None is the UnicodeDecodeError. */
  function ToEvent(utf8: seq<Byte> -> Option<string>, r: Raw): Option<Event> {
    var name := utf8(r.name);
    if name.None? then None else Some(Event(r.wd, r.mask, r.cookie, StripRight(name.value, '\0')))
  }

  /** The events of the records up to the first whose name does not decode. */
  function Events(utf8: seq<Byte> -> Option<string>, rs: seq<Raw>): seq<Event> {
    if |rs| == 0 || ToEvent(utf8, rs[0]).None? then [] else [ToEvent(utf8, rs[0]).value] + Events(utf8, rs[1..])
  }

  // ---- coalescing ----

  /** The event of an entry named by two apostrophes. */
  function Twin(e: Event): Event {
    e.(name := "''")
  }

  lemma TwinsExactly(d: Event, e: Event)
    ensures Twins(d, e) <==> (d.name == "" && e == Twin(d)) || (e.name == "" && d == Twin(e))
    ensures Twins(d, e) ==> d != e
  {
  }

  /**
   Every event of a batch is enqueued, or an equal one, exactly when no event without a name has a twin in the batch
   whose name is two apostrophes.
   */
  lemma CoalescedExactly(es: seq<Event>)
    ensures (forall e :: e in es ==> e in FirstOnly(Printed, {}, es))
       <==> (forall e :: e in es && e.name == "" ==> Twin(e) !in es)
  {
    AllLeftExactly(Printed, es);
    if d, e :| d in es && e in es && Printed(d) == Printed(e) && d != e {
      PrintedExactly(d, e);
      TwinsExactly(d, e);
    } else {
      forall e | e in es && e.name == ""
        ensures Twin(e) !in es
      {
        PrintedExactly(e, Twin(e));
        TwinsExactly(e, Twin(e));
      }
    }
  }

  const ATTRIB_DIR := 0x4000_0004

  /** Attributes changed of a watched directory, and of a directory in it named by two apostrophes: one is dropped. */
  lemma TwinDropped(wd: int)
    ensures var d, e := Event(wd, ATTRIB_DIR, 0, ""), Event(wd, ATTRIB_DIR, 0, "''");
            d != e && FirstOnly(Printed, {}, [d, e]) == [d]
  {
    var d, e := Event(wd, ATTRIB_DIR, 0, ""), Event(wd, ATTRIB_DIR, 0, "''");
    PrintedExactly(d, e);
    FirstOnlyStep(Printed, {}, [], d);
    FirstOnlyStep(Printed, {}, [d], e);
    assert [] + [d] == [d] && [d] + [e] == [d, e];
    assert d in [d] && Printed(d) in Keys(Printed, [d]);
  }

  /** The record at offset rsum. */
  lemma TakeAt(r: seq<Byte>, rsum: nat)
    requires rsum <= |r|
    ensures TakeRecord(r[rsum..]) ==
            if |r| < rsum + 16 then None
            else
              var len := GetWord(r[rsum + 12..rsum + 16]);
              if |r| < rsum + 16 + len then None
              else Some((Raw(Signed(GetWord(r[rsum..rsum + 4])), GetWord(r[rsum + 4..rsum + 8]),
                             GetWord(r[rsum + 8..rsum + 12]), r[rsum + 16..rsum + 16 + len]),
                         r[rsum + 16 + len..]))
  {
    var b := r[rsum..];
    if |b| >= 16 {
      assert b[0..4] == r[rsum..rsum + 4] && b[4..8] == r[rsum + 4..rsum + 8];
      assert b[8..12] == r[rsum + 8..rsum + 12] && b[12..16] == r[rsum + 12..rsum + 16];
      var len := GetWord(b[12..16]);
      if |b| >= 16 + len {
        assert b[16..16 + len] == r[rsum + 16..rsum + 16 + len] && b[16 + len..] == r[rsum + 16 + len..];
      }
    }
  }

  /** What was enqueued, and what follows at rsum, make up the whole. */
  ghost predicate Remaining(utf8: seq<Byte> -> Option<string>, r: seq<Byte>, rsum: nat, done: seq<Event>)
    requires rsum <= |r|
  {
    var all, rest := TakeAll(r), TakeAll(r[rsum..]);
    && all.1 == rest.1
    && |all.0| == |done| + |rest.0|
    && Events(utf8, all.0) == done + Events(utf8, rest.0)
  }

  lemma RemainingStep(utf8: seq<Byte> -> Option<string>, r: seq<Byte>, rsum: nat, done: seq<Event>, next: nat)
    requires rsum < next <= |r| && Remaining(utf8, r, rsum, done)
    requires var taken := TakeRecord(r[rsum..]);
             taken.Some? && ToEvent(utf8, taken.value.0).Some? && taken.value.1 == r[next..]
    ensures Remaining(utf8, r, next, done + [ToEvent(utf8, TakeRecord(r[rsum..]).value.0).value])
  {
    var (raw, tail) := TakeRecord(r[rsum..]).value;
    TakeMore(r[rsum..]);
    EventsMore(utf8, raw, TakeAll(tail).0);
    SeqAssociative(done, [ToEvent(utf8, raw).value], Events(utf8, TakeAll(tail).0));
  }

  lemma TakeMore(b: seq<Byte>)
    requires TakeRecord(b).Some?
    ensures var (raw, tail) := TakeRecord(b).value; TakeAll(b) == ([raw] + TakeAll(tail).0, TakeAll(tail).1)
  {
  }

  lemma EventsMore(utf8: seq<Byte> -> Option<string>, raw: Raw, rs: seq<Raw>)
    requires ToEvent(utf8, raw).Some?
    ensures Events(utf8, [raw] + rs) == [ToEvent(utf8, raw).value] + Events(utf8, rs)
  {
    assert ([raw] + rs)[1..] == rs;
  }

  lemma SeqAssociative<T>(a: seq<T>, b: seq<T>, c: seq<T>)
    ensures a + (b + c) == a + b + c
  {
  }

  lemma RemainingStuck(utf8: seq<Byte> -> Option<string>, r: seq<Byte>, rsum: nat, done: seq<Event>)
    requires rsum < |r| && Remaining(utf8, r, rsum, done)
    requires TakeRecord(r[rsum..]).None? || ToEvent(utf8, TakeRecord(r[rsum..]).value.0).None?
    ensures Events(utf8, TakeAll(r).0) == done
    ensures TakeAll(r).1 != [] || |done| < |TakeAll(r).0|
  {
    assert done + [] == done;
  }

  lemma RemainingNone(utf8: seq<Byte> -> Option<string>, r: seq<Byte>, rsum: nat, done: seq<Event>)
    requires rsum == |r| && Remaining(utf8, r, rsum, done)
    ensures Events(utf8, TakeAll(r).0) == done && TakeAll(r).1 == [] && |done| == |TakeAll(r).0|
  {
    assert r[rsum..] == [];
    assert done + [] == done;
  }

  class Notifier {
    const utf8: seq<Byte> -> Option<string>
    const threshold: nat
    var eventq: seq<Event>
    var coalesce: bool
    var eventset: set<string>

    constructor (utf8: seq<Byte> -> Option<string>, threshold: nat)
      ensures this.utf8 == utf8 && this.threshold == threshold && eventq == [] && !coalesce && eventset == {}
    {
      this.utf8, this.threshold, eventq, coalesce, eventset := utf8, threshold, [], false, {};
    }

    /** `coalesce_events` */
    method CoalesceEvents(on: bool)
      modifies this`coalesce, this`eventset
      ensures coalesce == on && eventset == if on then old(eventset) else {}
    {
      coalesce := on;
      if !on {
        eventset := {};
      }
    }

    /** `read_events` on the bytes read; False stands for an exception on a record or a name. */
    method ReadEvents(r: seq<Byte>) returns (ok: bool)
      modifies this`eventq, this`eventset
      ensures |r| < threshold ==> ok && eventq == old(eventq) && eventset == old(eventset)
      ensures |r| >= threshold ==>
                var (rs, rest) := TakeAll(r);
                var es := Events(utf8, rs);
                && (ok <==> rest == [] && |es| == |rs|)
                && eventq == old(eventq) + (if coalesce then FirstOnly(Printed, old(eventset), es) else es)
                && eventset == old(eventset) + if coalesce then Keys(Printed, es) else {}
    {
      if |r| < threshold {
        return true;
      }
      var rsum := 0;
      ghost var done: seq<Event> := [];
      assert r[0..] == r;
      while rsum < |r|
        invariant 0 <= rsum <= |r|
        invariant Remaining(utf8, r, rsum, done)
        invariant Enqueued(old(eventq), old(eventset), done)
      {
        var e, next := ReadRecord(r, rsum);
        if e.None? {
          RemainingStuck(utf8, r, rsum, done);
          return false;
        }
        RemainingStep(utf8, r, rsum, done, next);
        Enqueue(e.value, old(eventq), old(eventset), done);
        done := done + [e.value];
        rsum := next;
      }
      RemainingNone(utf8, r, rsum, done);
      ok := true;
    }

    /** The queue and the set after the events `done` were met. */
    ghost predicate Enqueued(queue: seq<Event>, seen: set<string>, done: seq<Event>)
      reads this`eventq, this`eventset, this`coalesce
    {
      && eventq == queue + (if coalesce then FirstOnly(Printed, seen, done) else done)
      && eventset == seen + if coalesce then Keys(Printed, done) else {}
    }

    /**
     The event at offset rsum and the offset after it; None if the record is cut short or its name does not
     decode.
     */
    method ReadRecord(r: seq<Byte>, rsum: nat) returns (e: Option<Event>, next: nat)
      requires rsum < |r|
      ensures var taken := TakeRecord(r[rsum..]);
              if taken.None? then e.None?
              else e == ToEvent(utf8, taken.value.0) && rsum < next <= |r| && r[next..] == taken.value.1
    {
      TakeAt(r, rsum);
      if |r| < rsum + 16 {
        return None, rsum;
      }
      var len := GetWord(r[rsum + 12..rsum + 16]);
      if |r| < rsum + 16 + len {
        return None, rsum;
      }
      var raw := Raw(Signed(GetWord(r[rsum..rsum + 4])), GetWord(r[rsum + 4..rsum + 8]),
                     GetWord(r[rsum + 8..rsum + 12]), r[rsum + 16..rsum + 16 + len]);
      e := ToEvent(utf8, raw);
      next := rsum + 16 + len;
    }

    method Enqueue(e: Event, ghost queue: seq<Event>, ghost seen: set<string>, ghost done: seq<Event>)
      requires Enqueued(queue, seen, done)
      modifies this`eventq, this`eventset
      ensures Enqueued(queue, seen, done + [e])
    {
      if coalesce {
        QueueStep(Printed, queue, seen, done, e);
        var text := Printed(e);
        if text !in eventset {
          eventset := eventset + {text};
          eventq := eventq + [e];
        }
      } else {
        assert queue + done + [e] == queue + (done + [e]);
        eventq := eventq + [e];
      }
    }

    /** What `process_events` leaves: an empty queue, and any event counts as new again. */
    method Drained()
      modifies this`eventq, this`eventset
      ensures eventq == [] && eventset == if coalesce then {} else old(eventset)
    {
      eventq := [];
      if coalesce {
        eventset := {};
      }
    }
  }

  // ---- events written by the kernel ----

  /** Decoding of text that may be followed by NULs: the NULs come out as characters after the text. */
  ghost predicate DecodesPadded(utf8: seq<Byte> -> Option<string>, bytes: seq<Byte>, name: string) {
    forall n: nat :: utf8(bytes + Repeat(NUL, n)) == Some(name + Repeat('\0', n))
  }

  /** A record as the kernel writes it for an event: the name, padded with NULs. */
  ghost predicate Written(utf8: seq<Byte> -> Option<string>, e: Event, r: Raw) {
    && r.wd == e.wd && r.mask == e.mask && r.cookie == e.cookie
    && exists bytes: seq<Byte>, n: nat :: r.name == bytes + Repeat(NUL, n) && DecodesPadded(utf8, bytes, e.name)
  }

  lemma WrittenDecodes(utf8: seq<Byte> -> Option<string>, e: Event, r: Raw)
    requires Written(utf8, e, r) && (e.name != "" ==> e.name[|e.name| - 1] != '\0')
    ensures ToEvent(utf8, r) == Some(e)
  {
    var bytes: seq<Byte>, n: nat :| r.name == bytes + Repeat(NUL, n) && DecodesPadded(utf8, bytes, e.name);
    StripPad(e.name, '\0', n);
  }

  lemma {:induction false} WrittenEvents(utf8: seq<Byte> -> Option<string>, es: seq<Event>, rs: seq<Raw>)
    requires |rs| == |es| && forall i :: 0 <= i < |es| ==>
               Written(utf8, es[i], rs[i]) && (es[i].name != "" ==> es[i].name[|es[i].name| - 1] != '\0')
    ensures Events(utf8, rs) == es
    decreases |rs|
  {
    if rs != [] {
      WrittenDecodes(utf8, es[0], rs[0]);
      WrittenEvents(utf8, es[1..], rs[1..]);
      assert es == [es[0]] + es[1..];
    }
  }

  /** A buffer the kernel wrote is consumed exactly, and gives back the events in order. */
  lemma BufferRoundTrip(utf8: seq<Byte> -> Option<string>, es: seq<Event>, rs: seq<Raw>)
    requires |rs| == |es| && forall i :: 0 <= i < |es| ==>
               Fits(rs[i]) && Written(utf8, es[i], rs[i]) && (es[i].name != "" ==> es[i].name[|es[i].name| - 1] != '\0')
    ensures TakeAll(EncodeAll(rs)) == (rs, []) && Events(utf8, rs) == es
  {
    TakeAllEncoded(rs);
    WrittenEvents(utf8, es, rs);
  }
}
