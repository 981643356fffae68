/** reports.hpp and reports.cpp: fixed-size report wire buffers. */
module Reports {
  import opened Core

  const INPUT_ID: Byte := 1
  const OUTPUT_ID: Byte := 2
  const FEATURE_ID: Byte := 3
  const INPUT_PAYLOAD: nat := 16
  const OUTPUT_PAYLOAD: nat := 16
  const FEATURE_PAYLOAD: nat := 8

  predicate IsReport(wire: seq<Byte>, id: Byte, payloadSize: nat) {
    |wire| == 1 + payloadSize && wire[0] == id
  }

  function Zeros(n: nat): (r: seq<Byte>)
    ensures |r| == n && forall i :: 0 <= i < n ==> r[i] == 0
  {
    if n == 0 then [] else [0] + Zeros(n - 1)
  }

  type InputReport = w: seq<Byte> | IsReport(w, INPUT_ID, INPUT_PAYLOAD)
    witness [INPUT_ID] + Zeros(INPUT_PAYLOAD)
  type OutputReport = w: seq<Byte> | IsReport(w, OUTPUT_ID, OUTPUT_PAYLOAD)
    witness [OUTPUT_ID] + Zeros(OUTPUT_PAYLOAD)
  type FeatureReport = w: seq<Byte> | IsReport(w, FEATURE_ID, FEATURE_PAYLOAD)
    witness [FEATURE_ID] + Zeros(FEATURE_PAYLOAD)

  const DEFAULT_FEATURE: FeatureReport := [FEATURE_ID] + Zeros(FEATURE_PAYLOAD)

  datatype ParseError = LengthMismatch | IdMismatch

  function ParseReport(id: Byte, payloadSize: nat, data: seq<Byte>): Result<seq<Byte>, ParseError> {
    if |data| != 1 + payloadSize then Err(LengthMismatch)
    else if data[0] != id then Err(IdMismatch)
    else Ok(data)
  }

  /** The wire form of a payload: the id, the payload, zeros up to the size. */
  function Padded(id: Byte, payloadSize: nat, payload: seq<Byte>): (wire: seq<Byte>)
    requires |payload| <= payloadSize
    ensures IsReport(wire, id, payloadSize)
  {
    [id] + payload + Zeros(payloadSize - |payload|)
  }

  class Report {
    const id: Byte
    const payloadSize: nat
    const wire: array<Byte>

    ghost predicate Valid()
      reads this, wire
    {
      IsReport(wire[..], id, payloadSize)
    }

    constructor (id: Byte, payloadSize: nat)
      ensures Valid() && fresh(wire) && this.id == id && this.payloadSize == payloadSize
      ensures wire[..] == Padded(id, payloadSize, [])
    {
      this.id, this.payloadSize := id, payloadSize;
      this.wire := new Byte[1 + payloadSize](_ => 0);
      new;
      wire[0] := id;
    }

    /** Returns false where the original throws length_error, changing nothing. */
    method SetPayload(data: seq<Byte>) returns (ok: bool)
      requires Valid()
      modifies wire
      ensures Valid()
      ensures ok <==> |data| <= payloadSize
      ensures wire[..] == if ok then Padded(id, payloadSize, data) else old(wire[..])
    {
      if |data| > payloadSize {
        return false;
      }
      for i := 0 to |data|
        invariant wire[0] == id
        invariant forall k :: 1 <= k < 1 + i ==> wire[k] == data[k - 1]
      {
        wire[1 + i] := data[i];
      }
      for i := |data| to payloadSize
        invariant wire[0] == id
        invariant forall k :: 1 <= k < 1 + |data| ==> wire[k] == data[k - 1]
        invariant forall k :: 1 + |data| <= k < 1 + i ==> wire[k] == 0
      {
        wire[1 + i] := 0;
      }
      ghost var padded := Padded(id, payloadSize, data);
      assert forall k :: 0 <= k < wire.Length ==> wire[k] == padded[k];
      ok := true;
    }
  }

  /** Parsing accepts exactly the well-formed buffers, and returns them unchanged;
      in particular it accepts whatever the constructor and SetPayload produce. */
  lemma ParseAcceptsReports(id: Byte, payloadSize: nat, data: seq<Byte>, payload: seq<Byte>)
    ensures ParseReport(id, payloadSize, data).Ok? <==> IsReport(data, id, payloadSize)
    ensures ParseReport(id, payloadSize, data).Ok? ==> ParseReport(id, payloadSize, data).value == data
    ensures |payload| <= payloadSize
        ==> var wire := Padded(id, payloadSize, payload);
            && ParseReport(id, payloadSize, wire) == Ok(wire)
            && wire[1..1 + |payload|] == payload
            && forall i :: 1 + |payload| <= i < |wire| ==> wire[i] == 0
  {}
}
