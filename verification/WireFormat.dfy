/** The bytes of the pipe, stated opcode by opcode against named_pipe_transport.cpp, and
    without the functions that the writer and the reader share. */
module WireFormat {
  import opened Core
  import opened Frames
  import opened PipeEnds
  import opened InProcess
  import opened PipeSystem

  // ---------- frames ----------

  /** A frame on the wire: the opcode, the length with its low byte first, the payload. */
  function Wire(op: Byte, payload: seq<Byte>): seq<Byte>
    requires |payload| < 0x1_0000
  {
    [op, |payload| % 256, |payload| / 256] + payload
  }

  /** What each message looks like to whoever listens on the pipe. */
  lemma WrittenBytes(m: Msg)
    ensures match m
            case InputMsg(r) => Encode(m) == [0x01, 17, 0] + r
            case OutputMsg(r) => Encode(m) == [0x02, 17, 0] + r
            case QueryMsg => Encode(m) == [0x03, 0, 0]
            case ReplyMsg(r) => Encode(m) == [0x04, 9, 0] + r
            case SetMsg(r) => Encode(m) == [0x05, 9, 0] + r
  {
    assert 17 % 256 == 17 && 17 / 256 == 0 && 9 % 256 == 9 && 9 / 256 == 0;
  }

  lemma FrameTaken(op: Byte, payload: seq<Byte>, rest: seq<Byte>)
    requires |payload| < 0x1_0000
    ensures TakeFrame(Wire(op, payload) + rest) == Some((Frame(op, payload), rest))
  {
    var bytes, n := Wire(op, payload) + rest, |payload|;
    assert bytes[1] == n % 256 && bytes[2] == n / 256;
    assert PayloadLength(bytes) == n;
    assert bytes[3..3 + n] == payload && bytes[3 + n..] == rest;
  }

  /** The message that a frame stands for; none when the frame is skipped. */
  predicate StandsFor(op: Byte, payload: seq<Byte>, m: Msg) {
    match m
    case InputMsg(r) => op == 0x01 && r == payload
    case OutputMsg(r) => op == 0x02 && r == payload
    case QueryMsg => op == 0x03
    case ReplyMsg(r) => op == 0x04 && r == payload
    case SetMsg(r) => op == 0x05 && r == payload
  }

  /** A frame with a known opcode and the right number of bytes; a query may carry any. */
  predicate RightSize(op: Byte, size: nat) {
    op == 0x03 || (op in {0x01, 0x02} && size == 17) || (op in {0x04, 0x05} && size == 9)
  }

  /** The id that a report under the opcode must begin with. */
  predicate RightId(op: Byte, payload: seq<Byte>)
    requires RightSize(op, |payload|)
  {
    op == 0x03 || payload[0] == (if op == 0x01 then 1 else if op == 0x02 then 2 else 3)
  }

  /** What the reader makes of any frame, whatever follows it: an unknown opcode or a wrong size
      is skipped, a wrong id ends the thread, and everything else is the message of its opcode. */
  lemma ReadByOpcode(op: Byte, payload: seq<Byte>, rest: seq<Byte>)
    requires |payload| < 0x1_0000
    ensures var outcome, after := Deliver(Wire(op, payload) + rest), Deliver(rest);
            if !RightSize(op, |payload|) then outcome == after
            else if !RightId(op, payload) then outcome == Outcome([], true)
            else
              && outcome.crashed == after.crashed && |outcome.delivered| == 1 + |after.delivered|
              && StandsFor(op, payload, outcome.delivered[0]) && outcome.delivered[1..] == after.delivered
  {
    FrameTaken(op, payload, rest);
  }

  /** A set on the wire is handled as that set, and so on for the four other kinds. */
  lemma MessageByMessage(m: Msg, rest: seq<Byte>)
    ensures var bytes := match m
              case InputMsg(r) => [0x01, 17, 0] + r
              case OutputMsg(r) => [0x02, 17, 0] + r
              case QueryMsg => [0x03, 0, 0]
              case ReplyMsg(r) => [0x04, 9, 0] + r
              case SetMsg(r) => [0x05, 9, 0] + r;
            Deliver(bytes + rest) == Outcome([m] + Deliver(rest).delivered, Deliver(rest).crashed)
  {
    WrittenBytes(m);
    TakeEncoded(m, rest);
    EncodedIsComplete(m);
  }

  // ---------- calls ----------

  /** The bytes that each call is about to write once it has the mutex. */
  lemma CallsOnTheWire(s: State, l: Label)
    requires Enabled(s, l)
    ensures l.HostLock? ==>
              match s.hosts[l.i].todo[0]
              case SendOutput(r) => Next(s, l).toDevice.left == [0x02, 17, 0] + r
              case SetFeature(r) => Next(s, l).toDevice.left == [0x05, 9, 0] + r
              case GetFeature => Next(s, l).toDevice.left == [0x03, 0, 0]
    ensures l.SubmitLock? ==> Next(s, l).toHost.left == [0x01, 17, 0] + s.devices[l.j].todo[0]
    ensures l.ReplyLock? ==> Next(s, l).toHost.left == [0x04, 9, 0] + s.serving.reply
  {
    match l
    case HostLock(i) => WrittenBytes(MsgOf(s.hosts[i].todo[0]));
    case SubmitLock(j) => WrittenBytes(InputMsg(s.devices[j].todo[0]));
    case ReplyLock => WrittenBytes(ReplyMsg(s.serving.reply));
    case _ =>
  }

  /** What the device's reader thread does with a whole frame it has read. */
  lemma DeviceHandles(s: State, op: Byte, payload: seq<Byte>)
    requires s.serving.Listening? && !s.toDevice.crashed
    requires |payload| < 0x1_0000 && s.toDevice.acc == Wire(op, payload)
    ensures Enabled(s, DeviceDispatch)
    ensures var t := Next(s, DeviceDispatch);
            && (op == 0x02 && |payload| == 17 && payload[0] == 2 ==>
                  t.log == s.log + [SendOutput(payload)] && t.serving.Listening?)
            && (op == 0x05 && |payload| == 9 && payload[0] == 3 ==>
                  t.log == s.log + [SetFeature(payload)] && t.serving.Listening?)
            && (op == 0x03 ==> t.log == s.log + [GetFeature] && t.serving == Answering(s.answer(s.log)))
            && (!RightSize(op, |payload|) ==> t.log == s.log && t.serving.Listening? && !t.toDevice.crashed)
  {
    WholeFrame(op, payload);
  }

  /** What the host's reader thread does with one: a response is stored and clears the flag. */
  lemma HostHandles(s: State, op: Byte, payload: seq<Byte>)
    requires !s.toHost.crashed
    requires |payload| < 0x1_0000 && s.toHost.acc == Wire(op, payload)
    ensures Enabled(s, HostDispatch)
    ensures var t := Next(s, HostDispatch);
            && (op == 0x01 && |payload| == 17 && payload[0] == 1 ==>
                  t.inputs == s.inputs + [payload] && t.pending == s.pending && t.response == s.response)
            && (op == 0x04 && |payload| == 9 && payload[0] == 3 ==>
                  t.response == payload && !t.pending && t.inputs == s.inputs)
            && (!RightSize(op, |payload|) ==>
                  t.pending == s.pending && t.response == s.response && t.inputs == s.inputs && !t.toHost.crashed)
  {
    WholeFrame(op, payload);
  }

  lemma WholeFrame(op: Byte, payload: seq<Byte>)
    requires |payload| < 0x1_0000
    ensures Complete(Wire(op, payload)) && FrameIn(Wire(op, payload)) == Frame(op, payload)
  {
    var bytes, n := Wire(op, payload), |payload|;
    assert bytes[1] == n % 256 && bytes[2] == n / 256;
    assert bytes[3..] == payload;
  }
}
