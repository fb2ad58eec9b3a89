/**
 The message pipe of a running shell task: an incremental reader that gets the byte stream in arbitrary
 chunks and dispatches a call for every message ended by a NUL.
 */
module FifoFraming {
  import opened Sequences

  const NUL: Byte := 0
  const SPACE: Byte := 32

  datatype Call =
    | Plain(value: string)
    | Note(value: string)
    | VerbNote(value: string)
    | Warn(value: string)
    | Error(value: string)
    | ErrorLog(value: string)
    | Debug(level: int, value: string)
    | Unrecognised(cmd: string)

  /** Decoding of UTF-8 text and of decimal numbers; None stands for the exception. */
  datatype Decoder = Decoder(utf8: seq<Byte> -> Option<string>, int_: string -> Option<int>)

  /** What one message makes the reader call; None if handling it raises an exception. */
  function Dispatch(d: Decoder, message: seq<Byte>): Option<Call> {
    var splitval := SplitMax(message, SPACE, 1);
    var cmd := d.utf8(splitval[0]);
    var value := if |splitval| > 1 then d.utf8(splitval[1]) else Some("");
    if cmd.None? || value.None? then None
    else if cmd.value == "bbplain" then Some(Plain(value.value))
    else if cmd.value == "bbnote" then Some(Note(value.value))
    else if cmd.value == "bbverbnote" then Some(VerbNote(value.value))
    else if cmd.value == "bbwarn" then Some(Warn(value.value))
    else if cmd.value == "bberror" then Some(Error(value.value))
    else if cmd.value == "bbfatal" then Some(Error(value.value))
    else if cmd.value == "bbfatal_log" then Some(ErrorLog(value.value))
    else if cmd.value == "bbdebug" then
      var words := SplitMax(value.value, ' ', 1);
      var level := d.int_(words[0]);
      if level.None? || |words| < 2 then None else Some(Debug(level.value, words[1]))
    else Some(Unrecognised(cmd.value))
  }

  /** A message as the logging functions of shell tasks send it: a name, a space and all that was said. */
  lemma MessageCalls(d: Decoder, cmd: seq<Byte>, name: string, text: seq<Byte>, value: string)
    requires SPACE !in cmd && d.utf8(cmd) == Some(name) && d.utf8(text) == Some(value)
    ensures var call := Dispatch(d, cmd + [SPACE] + text);
            && (name == "bbplain" ==> call == Some(Plain(value)))
            && (name == "bbnote" ==> call == Some(Note(value)))
            && (name == "bbverbnote" ==> call == Some(VerbNote(value)))
            && (name == "bbwarn" ==> call == Some(Warn(value)))
            && (name == "bberror" || name == "bbfatal" ==> call == Some(Error(value)))
            && (name == "bbfatal_log" ==> call == Some(ErrorLog(value)))
            && (!Known(name) ==> call == Some(Unrecognised(name)))
  {
    SplitMaxFirst(cmd, text, SPACE, 1);
  }

  /** A debug message has a level of its own in front of the text. */
  lemma DebugCalls(d: Decoder, cmd: seq<Byte>, text: seq<Byte>, level: string, value: string)
    requires SPACE !in cmd && ' ' !in level
    requires d.utf8(cmd) == Some("bbdebug") && d.utf8(text) == Some(level + [' '] + value)
    ensures Dispatch(d, cmd + [SPACE] + text) ==
            if d.int_(level).Some? then Some(Debug(d.int_(level).value, value)) else None
  {
    SplitMaxFirst(cmd, text, SPACE, 1);
    SplitMaxFirst(level, value, ' ', 1);
  }

  /** A name alone says nothing, and a debug message needs a text. */
  lemma BareCalls(d: Decoder, cmd: seq<Byte>, name: string)
    requires SPACE !in cmd && d.utf8(cmd) == Some(name)
    ensures Dispatch(d, cmd).None? ==> name == "bbdebug"
    ensures name == "bbwarn" ==> Dispatch(d, cmd) == Some(Warn(""))
    ensures name == "bbdebug" ==> Dispatch(d, cmd) == None
  {
    SplitMaxFree(cmd, SPACE, 1);
    assert SplitMax("", ' ', 1) == [""];
  }

  predicate Known(name: string) {
    name in {"bbplain", "bbnote", "bbverbnote", "bbwarn", "bberror", "bbfatal", "bbfatal_log", "bbdebug"}
  }

  /** `partition(b"\00")`: the bytes before and after the first NUL. */
  function Before(stream: seq<Byte>): seq<Byte> {
    if stream == [] || stream[0] == NUL then [] else [stream[0]] + Before(stream[1..])
  }

  function After(stream: seq<Byte>): seq<Byte>
    requires NUL in stream
  {
    if stream[0] == NUL then stream[1..] else After(stream[1..])
  }

  lemma {:induction false} Partition(stream: seq<Byte>)
    ensures NUL !in Before(stream)
    ensures if NUL in stream then stream == Before(stream) + [NUL] + After(stream) && |After(stream)| < |stream|
            else Before(stream) == stream
  {
    if stream != [] && stream[0] == NUL {
      assert stream == [] + [NUL] + stream[1..];
    } else if stream != [] {
      var tail := stream[1..];
      assert stream == [stream[0]] + tail;
      Partition(tail);
      if NUL in tail {
        assert [stream[0]] + (Before(tail) + [NUL] + After(tail)) == ([stream[0]] + Before(tail)) + [NUL] + After(tail);
      }
    }
  }

  /** Calls made, and bytes left in the buffer, once the buffer was worked through. */
  function Drain(d: Decoder, stream: seq<Byte>): (seq<Call>, seq<Byte>)
    decreases |stream|
  {
    if NUL !in stream then ([], stream)
    else
      Partition(stream);
      var c := Dispatch(d, Before(stream));
      if c.None? then ([], stream)
      else var (calls, rest) := Drain(d, After(stream)); ([c.value] + calls, rest)
  }

  class FifoReader {
    const d: Decoder
    var fifobuffer: seq<Byte>
    var calls: seq<Call>

    constructor (d: Decoder)
      ensures this.d == d && fifobuffer == [] && calls == []
    {
      this.d, fifobuffer, calls := d, [], [];
    }

    /** `readfifo`; False stands for an exception, which leaves the message in the buffer. */
    method ReadFifo(data: seq<Byte>) returns (ok: bool)
      modifies this
      ensures (calls, fifobuffer) == (old(calls) + Drain(d, old(fifobuffer) + data).0,
                                      Drain(d, old(fifobuffer) + data).1)
      ensures ok <==> NUL !in fifobuffer
    {
      fifobuffer := fifobuffer + data;
      ghost var stream := fifobuffer;
      while fifobuffer != []
        invariant calls + Drain(d, fifobuffer).0 == old(calls) + Drain(d, stream).0
        invariant Drain(d, fifobuffer).1 == Drain(d, stream).1
        decreases |fifobuffer|
      {
        Partition(fifobuffer);
        if NUL in fifobuffer {
          var c := Dispatch(d, Before(fifobuffer));
          if c.None? {
            assert calls + [] == calls;
            return false;
          }
          assert calls + [c.value] + Drain(d, After(fifobuffer)).0 == calls + Drain(d, fifobuffer).0;
          calls := calls + [c.value];
          fifobuffer := After(fifobuffer);
        } else {
          break;
        }
      }
      assert calls + [] == calls;
      ok := true;
    }
  }

  // ---- chunks ----

  lemma PartitionMore(a: seq<Byte>, b: seq<Byte>)
    requires NUL in a
    ensures Before(a + b) == Before(a) && After(a + b) == After(a) + b
  {
    if a[0] != NUL {
      assert (a + b)[1..] == a[1..] + b;
      PartitionMore(a[1..], b);
    } else {
      assert (a + b)[1..] == a[1..] + b;
    }
  }

  /** Working through a first part and going on with its rest is working through the whole. */
  lemma {:induction false} DrainMore(d: Decoder, a: seq<Byte>, b: seq<Byte>)
    ensures var (calls, rest) := Drain(d, a);
            Drain(d, a + b) == (calls + Drain(d, rest + b).0, Drain(d, rest + b).1)
    decreases |a|
  {
    if NUL in a {
      Partition(a);
      PartitionMore(a, b);
      if Dispatch(d, Before(a)).Some? {
        DrainMore(d, After(a), b);
        var first := [Dispatch(d, Before(a)).value];
        var (calls, rest) := Drain(d, After(a));
        assert first + (calls + Drain(d, rest + b).0) == first + calls + Drain(d, rest + b).0;
      }
    }
    assert [] + Drain(d, a + b).0 == Drain(d, a + b).0;
  }

  /** A message that is not UTF-8 stays in the buffer, whatever comes after it. */
  lemma RaisesAgain(d: Decoder, data: seq<Byte>)
    requires d.utf8([255]) == None
    ensures Drain(d, [255, NUL] + data) == ([], [255, NUL] + data)
  {
    var stream := [255, NUL] + data;
    assert stream[1..][0] == NUL && Before(stream) == [255];
    SplitFree([255], SPACE);
    assert SplitMax([255], SPACE, 1) == [[255]];
  }

  function Concat(chunks: seq<seq<Byte>>): seq<Byte> {
    if chunks == [] then [] else Concat(chunks[..|chunks| - 1]) + chunks[|chunks| - 1]
  }

  /** The reader's calls and buffer after it got the chunks one by one. */
  function Feed(d: Decoder, chunks: seq<seq<Byte>>): (seq<Call>, seq<Byte>) {
    if chunks == [] then ([], [])
    else
      var (calls, buffer) := Feed(d, chunks[..|chunks| - 1]);
      var (more, rest) := Drain(d, buffer + chunks[|chunks| - 1]);
      (calls + more, rest)
  }

  /** How the stream is cut makes no difference, even if messages raise exceptions. */
  lemma {:induction false} ChunkingIrrelevant(d: Decoder, chunks: seq<seq<Byte>>)
    ensures Feed(d, chunks) == Drain(d, Concat(chunks))
  {
    if chunks != [] {
      var front, last := chunks[..|chunks| - 1], chunks[|chunks| - 1];
      ChunkingIrrelevant(d, front);
      DrainMore(d, Concat(front), last);
    }
  }

  // ---- the whole stream, split at its NULs ----

  /** How many messages can be handled before the first that raises. */
  function GoodPrefix(d: Decoder, messages: seq<seq<Byte>>): (n: nat)
    ensures n <= |messages|
    ensures forall i :: 0 <= i < n ==> Dispatch(d, messages[i]).Some?
    ensures n < |messages| ==> Dispatch(d, messages[n]).None?
  {
    if messages == [] || Dispatch(d, messages[0]).None? then 0 else 1 + GoodPrefix(d, messages[1..])
  }

  function CallsOf(d: Decoder, messages: seq<seq<Byte>>): seq<Call>
    requires forall m :: m in messages ==> Dispatch(d, m).Some?
  {
    if messages == [] then [] else [Dispatch(d, messages[0]).value] + CallsOf(d, messages[1..])
  }

  /** The parts of the stream that are handled: all but the last, up to the first that raises. */
  ghost predicate Handled(d: Decoder, parts: seq<seq<Byte>>, calls: seq<Call>, rest: seq<Byte>)
    requires parts != []
  {
    var n := GoodPrefix(d, parts[..|parts| - 1]);
    && (forall m :: m in parts[..n] ==> Dispatch(d, m).Some?)
    && calls == CallsOf(d, parts[..n])
    && rest == Join(parts[n..], NUL)
  }

  lemma HandledNone(d: Decoder, parts: seq<seq<Byte>>)
    requires parts != [] && (|parts| == 1 || Dispatch(d, parts[0]).None?)
    ensures Handled(d, parts, [], Join(parts, NUL))
  {
    assert parts[0..] == parts;
  }

  lemma PrefixTail<T>(s: seq<T>, n: nat)
    requires 1 <= n <= |s|
    ensures s[..n] != [] && s[..n][0] == s[0] && s[..n][1..] == s[1..][..n - 1]
  {
  }

  lemma HandledMore(d: Decoder, first: seq<Byte>, rest: seq<seq<Byte>>, calls: seq<Call>, left: seq<Byte>)
    requires rest != [] && Dispatch(d, first).Some? && Handled(d, rest, calls, left)
    ensures Handled(d, [first] + rest, [Dispatch(d, first).value] + calls, left)
  {
    var parts := [first] + rest;
    var m := GoodPrefix(d, rest[..|rest| - 1]);
    assert parts[1..] == rest;
    PrefixTail(parts, |parts| - 1);
    assert GoodPrefix(d, parts[..|parts| - 1]) == 1 + m;
    PrefixTail(parts, 1 + m);
    assert parts[1 + m..] == parts[1..][m..];
  }

  /**
   The calls are those of the messages before the first one that raises, in order, and what stays in the buffer
   is the stream from there on: if none raises, exactly the bytes after the last NUL.
   */
  lemma {:induction false} DrainSplits(d: Decoder, stream: seq<Byte>)
    ensures Handled(d, Split(stream, NUL), Drain(d, stream).0, Drain(d, stream).1)
    decreases |stream|
  {
    SplitJoin(stream, NUL);
    Partition(stream);
    if NUL !in stream {
      SplitFree(stream, NUL);
      HandledNone(d, Split(stream, NUL));
    } else {
      var first, tail := Before(stream), After(stream);
      SplitFirst(first, tail, NUL);
      if Dispatch(d, first).Some? {
        DrainSplits(d, tail);
        HandledMore(d, first, Split(tail, NUL), Drain(d, tail).0, Drain(d, tail).1);
      } else {
        HandledNone(d, Split(stream, NUL));
      }
    }
  }
}
