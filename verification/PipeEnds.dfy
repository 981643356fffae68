/** Blocking reads and writes on one end of the pipe: read_all, read_frame, the
    reader loop, write_all and write_frame of named_pipe_transport.cpp. */
module PipeEnds {
  import opened Core
  import opened Frames
  import opened Reports

  function TakeFrame(bytes: seq<Byte>): (r: Option<(Frame, seq<Byte>)>)
    ensures r.Some? ==> |r.value.1| < |bytes|
  {
    if |bytes| < 3 || |bytes| < 3 + PayloadLength(bytes) then None
    else
      var end := 3 + PayloadLength(bytes);
      Some((Frame(bytes[0], bytes[3..end]), bytes[end..]))
  }

  datatype Outcome = Outcome(delivered: seq<Msg>, crashed: bool)

  /** What a reader delivers from a stream that ends after these bytes. */
  function Deliver(bytes: seq<Byte>): Outcome
    decreases |bytes|
  {
    var taken := TakeFrame(bytes);
    if taken.None? then Outcome([], false)
    else
      match Interpret(taken.value.0)
      case Handled(m) =>
        var rest := Deliver(taken.value.1);
        Outcome([m] + rest.delivered, rest.crashed)
      case Ignored => Deliver(taken.value.1)
      case Crash => Outcome([], true)
  }

  /** All whole frames of a byte stream. */
  function FramesOf(bytes: seq<Byte>): seq<Frame>
    decreases |bytes|
  {
    var taken := TakeFrame(bytes);
    if taken.None? then [] else [taken.value.0] + FramesOf(taken.value.1)
  }

  /** A frame that carries a report of the right size with the id of another report. */
  predicate WrongId(f: Frame) {
    || (f.op == 0x01 && |f.payload| == 17 && f.payload[0] != 1)
    || (f.op == 0x02 && |f.payload| == 17 && f.payload[0] != 2)
    || ((f.op == 0x04 || f.op == 0x05) && |f.payload| == 9 && f.payload[0] != 3)
  }

  /** What the frames before the first wrong id are handled as. */
  function HandledOf(frames: seq<Frame>): seq<Msg> {
    if frames == [] || WrongId(frames[0]) then []
    else (if Interpret(frames[0]).Handled? then [Interpret(frames[0]).msg] else []) + HandledOf(frames[1..])
  }

  lemma OnlyWrongIdsThrow(f: Frame)
    ensures Interpret(f).Crash? <==> WrongId(f)
  {}

  lemma FirstThrows(f: Frame, rest: seq<Frame>)
    ensures (exists i :: 0 <= i < |[f] + rest| && WrongId(([f] + rest)[i]))
       <==> WrongId(f) || exists i :: 0 <= i < |rest| && WrongId(rest[i])
  {
    var all := [f] + rest;
    assert all[0] == f;
    if i :| 0 <= i < |rest| && WrongId(rest[i]) {
      assert all[i + 1] == rest[i];
    }
  }

  /** For every byte stream, from whatever peer: the reader thread ends with an exception if and
      only if some whole frame carries a wrong id, and handles the frames before the first one. */
  lemma {:induction false} ReaderThrowsIffWrongId(bytes: seq<Byte>)
    ensures Deliver(bytes).crashed <==> exists i :: 0 <= i < |FramesOf(bytes)| && WrongId(FramesOf(bytes)[i])
    ensures Deliver(bytes).delivered == HandledOf(FramesOf(bytes))
    decreases |bytes|
  {
    var taken := TakeFrame(bytes);
    if taken.Some? {
      var (f, rest) := taken.value;
      OnlyWrongIdsThrow(f);
      ReaderThrowsIffWrongId(rest);
      FirstThrows(f, FramesOf(rest));
      assert FramesOf(bytes)[1..] == FramesOf(rest);
    }
  }

  /** An input report with id 9 ends the reader thread, whatever follows it. */
  lemma WrongIdThrows(rest: seq<Byte>)
    ensures Deliver([0x01, 17, 0] + ([9] + Zeros(16)) + rest) == Outcome([], true)
  {
    var header, report := [0x01, 17, 0], [9] + Zeros(16);
    var bytes := header + report + rest;
    assert PayloadLength(bytes) == 17 && bytes[3..20] == report;
    assert TakeFrame(bytes).value.0 == Frame(0x01, report);
    OnlyWrongIdsThrow(Frame(0x01, report));
  }

  /** One end of the connected pipe. `incoming` is everything that reads will
      still return before they fail, `outgoing` everything written so far. */
  class PipeEnd {
    var incoming: seq<Byte>
    var outgoing: seq<Byte>
    var dead: bool

    /** Returns any non-empty part of the next bytes; nothing once the stream has ended. */
    method ReadFile(size: nat) returns (chunk: seq<Byte>)
      requires size > 0
      modifies this`incoming
      ensures chunk + incoming == old(incoming)
      ensures |chunk| <= size && (chunk == [] ==> old(incoming) == [])
    {
      if incoming == [] {
        return [];
      }
      assert 1 <= size && 1 <= |incoming|;
      var n: nat :| 1 <= n <= size && n <= |incoming|;
      chunk := incoming[..n];
      incoming := incoming[n..];
    }

    /** Writes any part of the data; a short write kills the direction. */
    method WriteFile(data: seq<Byte>) returns (written: nat)
      modifies this`outgoing, this`dead
      ensures written <= |data| && outgoing == old(outgoing) + data[..written]
      ensures old(dead) && data != [] ==> written == 0
      ensures dead == (old(dead) || written < |data|)
    {
      if dead && data != [] {
        return 0;
      }
      assert 0 <= 0 <= |data|;
      written :| 0 <= written <= |data|;
      outgoing := outgoing + data[..written];
      dead := dead || written < |data|;
    }

    /** True exactly when the whole buffer holds the next bytes of the stream. */
    method ReadAll(size: nat) returns (ok: bool, data: seq<Byte>)
      modifies this`incoming
      ensures ok <==> |old(incoming)| >= size
      ensures ok ==> data == old(incoming)[..size] && incoming == old(incoming)[size..]
      ensures !ok ==> incoming == []
    {
      data := [];
      while |data| < size
        invariant |data| <= size && data + incoming == old(incoming)
        decreases size - |data|
      {
        var chunk := ReadFile(size - |data|);
        AppendAssociates(data, chunk, incoming);
        if chunk == [] {
          return false, data;
        }
        data := data + chunk;
      }
      ok := true;
    }

    method ReadFrame() returns (ok: bool, frame: Frame)
      modifies this`incoming
      ensures ok <==> TakeFrame(old(incoming)).Some?
      ensures ok ==> TakeFrame(old(incoming)) == Some((frame, incoming))
    {
      frame := Frame(0, []);
      var header;
      ok, header := ReadAll(3);
      if !ok {
        return;
      }
      var length: nat := PayloadLength(header);
      var payload := [];
      if length > 0 {
        ok, payload := ReadAll(length);
        if !ok {
          return;
        }
      }
      frame := Frame(header[0], payload);
      ghost var all := old(incoming);
      assert header == all[..3] && payload == all[3..3 + length];
      assert all[3..][length..] == all[3 + length..];
    }

    /** The reader thread: reads and handles frames until a read fails or a callback
        parse throws. However the stream is cut into chunks, the result is the same. */
    method ReaderLoop() returns (outcome: Outcome)
      modifies this`incoming
      ensures outcome == Deliver(old(incoming))
    {
      outcome := Outcome([], false);
      while true
        invariant !outcome.crashed
        invariant var rest := Deliver(incoming);
                  Deliver(old(incoming)) == Outcome(outcome.delivered + rest.delivered, rest.crashed)
        decreases |incoming|
      {
        ghost var before := incoming;
        var ok, frame := ReadFrame();
        if !ok {
          assert outcome.delivered + [] == outcome.delivered;
          return;
        }
        match Interpret(frame) {
          case Handled(m) =>
            AppendAssociates(outcome.delivered, [m], Deliver(incoming).delivered);
            outcome := outcome.(delivered := outcome.delivered + [m]);
          case Ignored =>
          case Crash =>
            assert outcome.delivered + [] == outcome.delivered;
            return Outcome(outcome.delivered, true);
        }
      }
    }

    method WriteAll(data: seq<Byte>) returns (ok: bool)
      modifies this`outgoing, this`dead
      ensures old(outgoing) <= outgoing <= old(outgoing) + data
      ensures ok <==> outgoing == old(outgoing) + data
      ensures dead == (old(dead) || !ok) && (old(dead) && data != [] ==> outgoing == old(outgoing))
    {
      var written := WriteFile(data);
      ok := written == |data|;
    }

    /** Places the whole frame, or a proper prefix of it and then nothing more ever. */
    method WriteFrame(m: Msg) returns (ok: bool)
      modifies this`outgoing, this`dead
      ensures old(outgoing) <= outgoing <= old(outgoing) + Encode(m)
      ensures ok <==> outgoing == old(outgoing) + Encode(m)
      ensures dead == (old(dead) || !ok)
      ensures old(dead) ==> outgoing == old(outgoing)
    {
      var frame := FrameOf(m);
      var header := Header(frame.op, |frame.payload|);
      AppendAssociates(outgoing, header, frame.payload);
      ok := WriteAll(header);
      if !ok {
        return;
      }
      if |frame.payload| > 0 {
        ok := WriteAll(frame.payload);
      }
    }
  }

  lemma TakeEncoded(m: Msg, rest: seq<Byte>)
    ensures TakeFrame(Encode(m) + rest) == Some((FrameOf(m), rest))
  {
    var bytes := Encode(m) + rest;
    EncodedIsComplete(m);
    var n := 3 + |FrameOf(m).payload|;
    assert PayloadLength(bytes) == PayloadLength(Encode(m)) == n - 3;
    assert bytes[3..n] == FrameOf(m).payload && bytes[n..] == rest;
  }

  lemma TakePartial(m: Msg, k: nat)
    requires k < |Encode(m)|
    ensures TakeFrame(Encode(m)[..k]).None?
  {
    MissingWithin(Encode(m)[..k], m);
  }

  /** The number of messages whose every byte is among the first k. */
  function Whole(ms: seq<Msg>, k: nat): (n: nat)
    ensures n <= |ms|
  {
    if ms == [] || k < |Encode(ms[0])| then 0 else 1 + Whole(ms[1..], k - |Encode(ms[0])|)
  }

  lemma {:induction false} WholeIsExact(ms: seq<Msg>, k: nat)
    requires k <= |EncodeAll(ms)|
    ensures var n := Whole(ms, k);
            |EncodeAll(ms[..n])| <= k && (n < |ms| ==> k < |EncodeAll(ms[..n + 1])|)
    decreases |ms|
  {
    if ms == [] {
    } else if k < |Encode(ms[0])| {
      CutInFirst(ms, k);
    } else {
      var n := Whole(ms[1..], k - |Encode(ms[0])|);
      CutAfterFirst(ms, k);
      WholeIsExact(ms[1..], k - |Encode(ms[0])|);
      PrefixSize(ms, n);
      if n < |ms[1..]| {
        PrefixSize(ms, n + 1);
      }
    }
  }

  /** A stream of frames may end after any number of bytes: the reader delivers
      exactly the messages whose every byte arrived, and its parses never throw. */
  lemma {:induction false} CutAnywhere(ms: seq<Msg>, k: nat)
    requires k <= |EncodeAll(ms)|
    ensures Deliver(EncodeAll(ms)[..k]) == Outcome(ms[..Whole(ms, k)], false)
    decreases |ms|
  {
    if ms == [] {
    } else if k < |Encode(ms[0])| {
      CutInFirst(ms, k);
    } else {
      var rest := k - |Encode(ms[0])|;
      CutAfterFirst(ms, k);
      CutAnywhere(ms[1..], rest);
      FirstAndMore(ms, Whole(ms[1..], rest));
    }
  }

  lemma {:induction false} CutInFirst(ms: seq<Msg>, k: nat)
    requires ms != [] && k < |Encode(ms[0])| && k <= |EncodeAll(ms)|
    ensures Deliver(EncodeAll(ms)[..k]) == Outcome([], false)
    ensures EncodeAll(ms[..1]) == Encode(ms[0])
  {
    EncodeAllCons(ms);
    assert ms[..1] == [ms[0]];
    EncodeAllOne(ms[0]);
    assert EncodeAll(ms)[..k] == Encode(ms[0])[..k];
    TakePartial(ms[0], k);
  }

  lemma {:induction false} CutAfterFirst(ms: seq<Msg>, k: nat)
    requires ms != [] && |Encode(ms[0])| <= k <= |EncodeAll(ms)|
    ensures |EncodeAll(ms)| == |Encode(ms[0])| + |EncodeAll(ms[1..])|
    ensures var rest := Deliver(EncodeAll(ms[1..])[..k - |Encode(ms[0])|]);
            Deliver(EncodeAll(ms)[..k]) == Outcome([ms[0]] + rest.delivered, rest.crashed)
  {
    EncodeAllCons(ms);
    var rest := EncodeAll(ms[1..])[..k - |Encode(ms[0])|];
    assert EncodeAll(ms)[..k] == Encode(ms[0]) + rest;
    TakeEncoded(ms[0], rest);
    EncodedIsComplete(ms[0]);
  }

  lemma PrefixSize(ms: seq<Msg>, i: nat)
    requires i < |ms|
    ensures |EncodeAll(ms[..i + 1])| == |Encode(ms[0])| + |EncodeAll(ms[1..][..i])|
  {
    assert ms[..i + 1] == [ms[0]] + ms[1..][..i];
    EncodeAllConcat([ms[0]], ms[1..][..i]);
    EncodeAllOne(ms[0]);
  }

  lemma {:induction false} SizesGrow(ms: seq<Msg>, i: nat, j: nat)
    requires i <= j <= |ms|
    ensures |EncodeAll(ms[..i])| + (j - i) <= |EncodeAll(ms[..j])|
  {
    if i < j {
      SizesGrow(ms, i, j - 1);
      assert ms[..j] == ms[..j - 1] + [ms[j - 1]];
      EncodeAllSnoc(ms[..j - 1], ms[j - 1]);
    }
  }

  lemma EndsWithin(ms: seq<Msg>, n: nat, size: nat, k: nat)
    requires n <= |ms| && k < |ms| && |EncodeAll(ms[..n])| <= size
    requires n < |ms| ==> size < |EncodeAll(ms[..n + 1])|
    ensures |EncodeAll(ms[..k + 1])| <= size <==> k < n
  {
    if k < n {
      SizesGrow(ms, k + 1, n);
    } else {
      SizesGrow(ms, n + 1, k + 1);
    }
  }

  /** A message is among the whole ones exactly when its frame ends within the first bytes. */
  lemma WholeBySize(ms: seq<Msg>, size: nat, k: nat)
    requires size <= |EncodeAll(ms)| && k < |ms|
    ensures |EncodeAll(ms[..k + 1])| <= size <==> k < Whole(ms, size)
  {
    WholeIsExact(ms, size);
    EndsWithin(ms, Whole(ms, size), size, k);
  }

  /** If at most the last frame is incomplete, all frames before it are whole. */
  lemma AllButLast(ms: seq<Msg>, size: nat, k: nat)
    requires k + 1 < |ms| && |EncodeAll(ms)| <= size + |Encode(ms[|ms| - 1])|
    ensures |EncodeAll(ms[..k + 1])| <= size
  {
    var last := |ms| - 1;
    assert ms == ms[..last] + [ms[last]];
    EncodeAllSnoc(ms[..last], ms[last]);
    SizesGrow(ms, k + 1, last);
  }
}
