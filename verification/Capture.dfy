/** device_inspector.cpp: capability arrays are grouped into reports by report
    id, and the captured profile is compiled to a descriptor. The capability
    arrays are inputs. */
module Capture {
  import opened Core
  import opened Profiles
  import opened DescriptorBuilder

  datatype UsageCaps = InRange(first: U16, last: U16) | Single(usage: U16) {
    function Min(): U16 { if InRange? then first else usage }
    function Max(): U16 { if InRange? then last else usage }
  }

  datatype ButtonCaps = ButtonCaps(usagePage: U16, reportId: Byte, isAbsolute: bool, usages: UsageCaps)

  datatype ValueCaps = ValueCaps(
    usagePage: U16, reportId: Byte, isAbsolute: bool, hasNull: bool, usages: UsageCaps,
    logicalMin: I32, logicalMax: I32, physicalMin: I32, physicalMax: I32,
    bitSize: U16, reportCount: U16, units: U32, unitsExp: U32)

  /** A capability as a field and the report it belongs to. */
  datatype Captured = Captured(reportId: Byte, field: FieldCaps)

  function FromButton(c: ButtonCaps): Captured {
    // The count is computed in int and truncated to 16 bits.
    var count := if c.usages.InRange? then (c.usages.last - c.usages.first + 1) % 0x1_0000 else 1;
    Captured(c.reportId,
             FieldCaps(c.usagePage, c.usages.Min(), c.usages.Max(), 0, 1, 0, 0, 1, count, 0, 0,
                       true, c.isAbsolute, false))
  }

  function FromValue(c: ValueCaps): Captured {
    Captured(c.reportId,
             FieldCaps(c.usagePage, c.usages.Min(), c.usages.Max(), c.logicalMin, c.logicalMax,
                       c.physicalMin, c.physicalMax, c.bitSize, c.reportCount, c.units, c.unitsExp,
                       false, c.isAbsolute, c.hasNull))
  }

  function FromButtons(cs: seq<ButtonCaps>): (r: seq<Captured>)
    ensures |r| == |cs|
  {
    if cs == [] then [] else FromButtons(cs[..|cs| - 1]) + [FromButton(cs[|cs| - 1])]
  }

  function FromValues(cs: seq<ValueCaps>): (r: seq<Captured>)
    ensures |r| == |cs|
  {
    if cs == [] then [] else FromValues(cs[..|cs| - 1]) + [FromValue(cs[|cs| - 1])]
  }

  /** What the HID parser API answers for one report kind: how many capabilities
      it announces, and the array it then returns, if the call succeeds. */
  datatype Answer<T> = Answer(count: U16, caps: Option<seq<T>>) {
    predicate Valid() { caps.Some? ==> |caps.value| <= count }
    function Read(): seq<T> { if count == 0 || caps.None? then [] else caps.value }
  }

  datatype KindCaps = KindCaps(buttons: Answer<ButtonCaps>, values: Answer<ValueCaps>) {
    predicate Valid() { buttons.Valid() && values.Valid() }
    /** All capabilities of one kind in the order they are visited. */
    function All(): seq<Captured> { FromButtons(buttons.Read()) + FromValues(values.Read()) }
  }

  // ---------- grouping, as a function ----------

  function Insert(rs: seq<ReportInfo>, c: Captured): seq<ReportInfo> {
    if rs == [] then [ReportInfo(c.reportId, 0, [c.field])]
    else if rs[0].reportId == c.reportId then [rs[0].(fields := rs[0].fields + [c.field])] + rs[1..]
    else [rs[0]] + Insert(rs[1..], c)
  }

  function Collect(rs: seq<ReportInfo>, cs: seq<Captured>): seq<ReportInfo> {
    if cs == [] then rs else Insert(Collect(rs, cs[..|cs| - 1]), cs[|cs| - 1])
  }

  predicate IsFirst(rs: seq<ReportInfo>, id: Byte, i: nat)
    requires i <= |rs|
  {
    (forall k :: 0 <= k < i ==> rs[k].reportId != id) && (i < |rs| ==> rs[i].reportId == id)
  }

  lemma {:induction false} InsertAt(rs: seq<ReportInfo>, c: Captured, i: nat)
    requires i <= |rs| && IsFirst(rs, c.reportId, i)
    ensures Insert(rs, c) == if i < |rs| then rs[i := rs[i].(fields := rs[i].fields + [c.field])]
                             else rs + [ReportInfo(c.reportId, 0, [c.field])]
  {
    if i > 0 {
      InsertAt(rs[1..], c, i - 1);
    }
  }

  // ---------- the collector ----------

  /** The report vector that grows while capabilities are visited. */
  class ReportTable {
    var reports: seq<ReportInfo>

    constructor ()
      ensures reports == []
    {
      reports := [];
    }

    method FindOrAdd(id: Byte) returns (i: nat)
      modifies this
      ensures i <= |old(reports)| && IsFirst(old(reports), id, i)
      ensures reports == if i < |old(reports)| then old(reports) else old(reports) + [ReportInfo(id, 0, [])]
    {
      i := 0;
      while i < |reports|
        invariant i <= |reports| && reports == old(reports)
        invariant forall k :: 0 <= k < i ==> reports[k].reportId != id
      {
        if reports[i].reportId == id {
          return;
        }
        i := i + 1;
      }
      reports := reports + [ReportInfo(id, 0, [])];
    }

    method AddCaptured(c: Captured)
      modifies this
      ensures reports == Insert(old(reports), c)
    {
      var i := FindOrAdd(c.reportId);
      InsertAt(old(reports), c, i);
      ghost var grown := reports[i].fields + [c.field];
      reports := reports[i := reports[i].(fields := reports[i].fields + [c.field])];
      if i == |old(reports)| {
        assert grown == [c.field];
        assert reports == old(reports) + [ReportInfo(c.reportId, 0, [c.field])];
      }
    }

    method CollectButtons(answer: Answer<ButtonCaps>)
      requires answer.Valid()
      modifies this
      ensures reports == Collect(old(reports), FromButtons(answer.Read()))
    {
      if answer.count == 0 {
        return;
      }
      if answer.caps.None? {
        return;
      }
      var caps := answer.caps.value;
      for i := 0 to |caps|
        invariant reports == Collect(old(reports), FromButtons(caps[..i]))
      {
        AddCaptured(FromButton(caps[i]));
        assert caps[..i + 1][..i] == caps[..i];
        CollectStep(old(reports), FromButtons(caps[..i]), FromButton(caps[i]));
      }
      assert caps[..|caps|] == caps;
    }

    method CollectValues(answer: Answer<ValueCaps>)
      requires answer.Valid()
      modifies this
      ensures reports == Collect(old(reports), FromValues(answer.Read()))
    {
      if answer.count == 0 {
        return;
      }
      if answer.caps.None? {
        return;
      }
      var caps := answer.caps.value;
      for i := 0 to |caps|
        invariant reports == Collect(old(reports), FromValues(caps[..i]))
      {
        AddCaptured(FromValue(caps[i]));
        assert caps[..i + 1][..i] == caps[..i];
        CollectStep(old(reports), FromValues(caps[..i]), FromValue(caps[i]));
      }
      assert caps[..|caps|] == caps;
    }

    method SetByteLengths(length: U16)
      modifies this
      ensures reports == WithLength(old(reports), length)
    {
      for i := 0 to |reports|
        invariant |reports| == |old(reports)|
        invariant forall k :: 0 <= k < |reports| ==>
                    reports[k] == if k < i then old(reports)[k].(byteLength := length) else old(reports)[k]
      {
        reports := reports[i := reports[i].(byteLength := length)];
      }
    }
  }

  lemma CollectStep(rs: seq<ReportInfo>, cs: seq<Captured>, c: Captured)
    ensures Collect(rs, cs + [c]) == Insert(Collect(rs, cs), c)
  {
    assert (cs + [c])[..|cs|] == cs;
  }

  lemma {:induction false} CollectConcat(rs: seq<ReportInfo>, a: seq<Captured>, b: seq<Captured>)
    ensures Collect(rs, a + b) == Collect(Collect(rs, a), b)
  {
    if b == [] {
      assert a + b == a;
    } else {
      CollectConcat(rs, a, b[..|b| - 1]);
      assert (a + b)[..|a + b| - 1] == a + b[..|b| - 1];
    }
  }

  function WithLength(rs: seq<ReportInfo>, length: U16): (r: seq<ReportInfo>)
    ensures |r| == |rs|
    ensures forall i :: 0 <= i < |rs| ==> r[i] == rs[i].(byteLength := length)
  {
    if rs == [] then [] else [rs[0].(byteLength := length)] + WithLength(rs[1..], length)
  }

  method CollectKind(caps: KindCaps, length: U16) returns (reports: seq<ReportInfo>)
    requires caps.Valid()
    ensures reports == WithLength(Collect([], caps.All()), length)
  {
    var table := new ReportTable();
    table.CollectButtons(caps.buttons);
    table.CollectValues(caps.values);
    CollectConcat([], FromButtons(caps.buttons.Read()), FromValues(caps.values.Read()));
    table.SetByteLengths(length);
    reports := table.reports;
  }

  /** The top-level capabilities: usage, the three kinds and their byte lengths. */
  datatype DeviceCaps = DeviceCaps(
    usagePage: U16, usage: U16, input: KindCaps, output: KindCaps, feature: KindCaps,
    inputLength: U16, outputLength: U16, featureLength: U16)
  {
    predicate Valid() { input.Valid() && output.Valid() && feature.Valid() }
  }

  /** The captured profile, on top of the identity read before. */
  function Profiled(identity: DeviceProfile, caps: DeviceCaps): DeviceProfile {
    identity.(usagePage := caps.usagePage, usage := caps.usage,
              inputReports := WithLength(Collect([], caps.input.All()), caps.inputLength),
              outputReports := WithLength(Collect([], caps.output.All()), caps.outputLength),
              featureReports := WithLength(Collect([], caps.feature.All()), caps.featureLength))
  }

  /** The descriptor that a profile already has plays no part in the one built for it. */
  lemma DescriptorIsNotCompiled(p: DeviceProfile, bytes: seq<Byte>)
    ensures Descriptor(p.(reportDescriptor := bytes)) == Descriptor(p)
  {
    var q := p.(reportDescriptor := bytes);
    assert Header(q) == Header(p) && Sections(q) == Sections(p);
  }

  /** The part of `inspect_device` after the device is open. The raw descriptor is
      used when the device hands it out, else one is built. */
  method InspectDevice(identity: DeviceProfile, caps: DeviceCaps, raw: Option<seq<Byte>>) returns (p: DeviceProfile)
    requires caps.Valid()
    ensures var q := Profiled(identity, caps);
            p == q.(reportDescriptor := if raw.Some? then raw.value else Descriptor(q))
    ensures forall i :: 0 <= i < |p.inputReports| ==> p.inputReports[i].byteLength == caps.inputLength
    ensures forall i :: 0 <= i < |p.outputReports| ==> p.outputReports[i].byteLength == caps.outputLength
    ensures forall i :: 0 <= i < |p.featureReports| ==> p.featureReports[i].byteLength == caps.featureLength
    ensures p.usagePage == caps.usagePage && p.usage == caps.usage
    ensures p.vendorId == identity.vendorId && p.productId == identity.productId
    ensures p.versionNumber == identity.versionNumber && p.serialNumber == identity.serialNumber
    ensures p.manufacturer == identity.manufacturer && p.product == identity.product
    ensures p.reportDescriptor == match raw case Some(bytes) => bytes case None => Descriptor(p)
  {
    p := identity.(usagePage := caps.usagePage, usage := caps.usage);
    var inputs := CollectKind(caps.input, caps.inputLength);
    var outputs := CollectKind(caps.output, caps.outputLength);
    var features := CollectKind(caps.feature, caps.featureLength);
    p := p.(inputReports := inputs, outputReports := outputs, featureReports := features);
    var descriptor;
    if raw.Some? {
      descriptor := raw.value;
    } else {
      descriptor := BuildReportDescriptor(p);
    }
    DescriptorIsNotCompiled(p, descriptor);
    p := p.(reportDescriptor := descriptor);
  }
}
