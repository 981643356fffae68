/** The framing of named_pipe_transport.cpp: [u8 op][u16 length, low byte first][payload]. */
module Frames {
  import opened Core
  import opened Reports

  datatype Msg =
    | InputMsg(input: InputReport)
    | OutputMsg(output: OutputReport)
    | QueryMsg
    | ReplyMsg(reply: FeatureReport)
    | SetMsg(feature: FeatureReport)

  datatype Frame = Frame(op: Byte, payload: seq<Byte>)

  function FrameOf(m: Msg): Frame {
    match m
    case InputMsg(r) => Frame(0x01, r)
    case OutputMsg(r) => Frame(0x02, r)
    case QueryMsg => Frame(0x03, [])
    case ReplyMsg(r) => Frame(0x04, r)
    case SetMsg(r) => Frame(0x05, r)
  }

  function Header(op: Byte, length: U16): seq<Byte> {
    [op, length % 256, length / 256]
  }

  function Encode(m: Msg): (bytes: seq<Byte>)
    ensures 3 <= |bytes| <= 20
  {
    Header(FrameOf(m).op, |FrameOf(m).payload|) + FrameOf(m).payload
  }

  function EncodeAll(ms: seq<Msg>): seq<Byte> {
    if ms == [] then [] else EncodeAll(ms[..|ms| - 1]) + Encode(ms[|ms| - 1])
  }

  /** What the reader thread does with a frame, with all callbacks installed.
      `Crash` is an exception that leaves the thread. */
  datatype Action = Handled(msg: Msg) | Ignored | Crash

  function Interpret(f: Frame): Action {
    if f.op == 0x01 then
      if |f.payload| != 1 + INPUT_PAYLOAD then Ignored
      else match ParseReport(INPUT_ID, INPUT_PAYLOAD, f.payload)
        case Ok(w) => Handled(InputMsg(w))
        case Err(_) => Crash
    else if f.op == 0x02 then
      if |f.payload| != 1 + OUTPUT_PAYLOAD then Ignored
      else match ParseReport(OUTPUT_ID, OUTPUT_PAYLOAD, f.payload)
        case Ok(w) => Handled(OutputMsg(w))
        case Err(_) => Crash
    else if f.op == 0x03 then Handled(QueryMsg)
    else if f.op == 0x04 then
      if |f.payload| != 1 + FEATURE_PAYLOAD then Ignored
      else match ParseReport(FEATURE_ID, FEATURE_PAYLOAD, f.payload)
        case Ok(w) => Handled(ReplyMsg(w))
        case Err(_) => Crash
    else if f.op == 0x05 then
      if |f.payload| != 1 + FEATURE_PAYLOAD then Ignored
      else match ParseReport(FEATURE_ID, FEATURE_PAYLOAD, f.payload)
        case Ok(w) => Handled(SetMsg(w))
        case Err(_) => Crash
    else Ignored
  }

  // ---------- reading from a byte stream ----------

  function PayloadLength(header: seq<Byte>): nat
    requires |header| >= 3
  {
    header[1] as int + 256 * header[2] as int
  }

  /** How many bytes the running read_all still waits for: the header first, then
      the payload that the header announces. */
  function Missing(acc: seq<Byte>): int {
    if |acc| < 3 then 3 - |acc| else 3 + PayloadLength(acc) - |acc|
  }

  predicate Complete(acc: seq<Byte>) {
    |acc| >= 3 && Missing(acc) == 0
  }

  function FrameIn(acc: seq<Byte>): Frame
    requires |acc| >= 3
  {
    Frame(acc[0], acc[3..])
  }

  lemma EncodedIsComplete(m: Msg)
    ensures Complete(Encode(m)) && FrameIn(Encode(m)) == FrameOf(m) && Interpret(FrameOf(m)) == Handled(m)
  {
    assert Encode(m)[3..] == FrameOf(m).payload;
  }

  /** A reader that has part of an encoded message never asks for more than the rest of it. */
  lemma MissingWithin(acc: seq<Byte>, m: Msg)
    requires acc <= Encode(m)
    ensures 0 <= Missing(acc) <= |Encode(m)| - |acc|
    ensures Complete(acc) <==> acc == Encode(m)
  {
    EncodedIsComplete(m);
    assert |acc| >= 3 ==> acc[1] == Encode(m)[1] && acc[2] == Encode(m)[2];
    if |acc| == |Encode(m)| {
      assert acc == Encode(m)[..|acc|];
    }
  }

  lemma {:induction false} EncodeAllConcat(a: seq<Msg>, b: seq<Msg>)
    ensures EncodeAll(a + b) == EncodeAll(a) + EncodeAll(b)
  {
    if b == [] {
      assert a + b == a;
    } else {
      var init := b[..|b| - 1];
      EncodeAllConcat(a, init);
      LastOfConcat(a, b);
      AppendAssociates(EncodeAll(a), EncodeAll(init), Encode(b[|b| - 1]));
    }
  }

  lemma EncodeAllOne(m: Msg)
    ensures EncodeAll([m]) == Encode(m)
  {
    assert [m][..0] == [];
  }

  lemma EncodeAllSnoc(ms: seq<Msg>, m: Msg)
    ensures EncodeAll(ms + [m]) == EncodeAll(ms) + Encode(m)
  {
    assert (ms + [m])[..|ms|] == ms;
  }

  lemma {:induction false} EncodeAllCons(ms: seq<Msg>)
    requires ms != []
    ensures EncodeAll(ms) == Encode(ms[0]) + EncodeAll(ms[1..])
  {
    assert ms == [ms[0]] + ms[1..];
    EncodeAllConcat([ms[0]], ms[1..]);
    EncodeAllOne(ms[0]);
  }
}
