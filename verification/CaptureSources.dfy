/** What of a capability array ends up where: every member of every captured and parsed field
    is traced back to the raw capability it belongs to. */
module CaptureSources {
  import opened Core
  import opened Profiles
  import opened HidParser
  import opened DescriptorBuilder
  import opened DescriptorMeaning
  import opened Capture
  import opened CaptureMeaning

  // ---------- raw capabilities of one report ----------

  /** The button capabilities with a report id, in array order. */
  function ButtonsWith(cs: seq<ButtonCaps>, id: Byte): seq<ButtonCaps> {
    if cs == [] then []
    else ButtonsWith(cs[..|cs| - 1], id) + if cs[|cs| - 1].reportId == id then [cs[|cs| - 1]] else []
  }

  function ValuesWith(cs: seq<ValueCaps>, id: Byte): seq<ValueCaps> {
    if cs == [] then []
    else ValuesWith(cs[..|cs| - 1], id) + if cs[|cs| - 1].reportId == id then [cs[|cs| - 1]] else []
  }

  /** A call that fails gives no capabilities; one that succeeds gives those it returned. */
  lemma ReadsWhatWasReturned<T>(answer: Answer<T>)
    requires answer.Valid()
    ensures answer.caps.None? ==> answer.Read() == []
    ensures answer.caps.Some? ==> answer.Read() == answer.caps.value
  {}

  predicate UsagesAre(u: UsageCaps, first: int, last: int) {
    match u
    case InRange(a, b) => first == a && last == b
    case Single(a) => first == a && last == a
  }

  /** The captured field of a button capability: one bit for each usage, 0 or 1. */
  predicate OfButton(f: FieldCaps, c: ButtonCaps) {
    && f.usagePage == c.usagePage && UsagesAre(c.usages, f.usageMin, f.usageMax)
    && f.logicalMin == 0 && f.logicalMax == 1 && f.reportSize == 1
    && (match c.usages
        case InRange(first, last) => (f.reportCount - (last - first + 1)) % 0x1_0000 == 0
        case Single(_) => f.reportCount == 1)
    && f.physicalMin == f.physicalMax == 0 && f.unit == f.unitExponent == 0
    && f.isButton && f.isAbsolute == c.isAbsolute && !f.hasNull
  }

  /** The captured field of a value capability: everything as announced. */
  predicate OfValue(f: FieldCaps, c: ValueCaps) {
    && f.usagePage == c.usagePage && UsagesAre(c.usages, f.usageMin, f.usageMax)
    && f.logicalMin == c.logicalMin && f.logicalMax == c.logicalMax
    && f.physicalMin == c.physicalMin && f.physicalMax == c.physicalMax
    && f.reportSize == c.bitSize && f.reportCount == c.reportCount
    && f.unit == c.units && f.unitExponent == c.unitsExp
    && !f.isButton && f.isAbsolute == c.isAbsolute && f.hasNull == c.hasNull
  }

  /** Fields are those of the button capabilities, then those of the value capabilities. */
  predicate OfCaps(fs: seq<FieldCaps>, bs: seq<ButtonCaps>, vs: seq<ValueCaps>) {
    && |fs| == |bs| + |vs|
    && (forall k :: 0 <= k < |bs| ==> OfButton(fs[k], bs[k]))
    && (forall k :: 0 <= k < |vs| ==> OfValue(fs[|bs| + k], vs[k]))
  }

  // ---------- the captured profile ----------

  lemma {:induction false} ButtonFields(cs: seq<ButtonCaps>, id: Byte)
    ensures OfCaps(FieldsFor(FromButtons(cs), id), ButtonsWith(cs, id), [])
  {
    if cs != [] {
      var n := |cs| - 1;
      ButtonFields(cs[..n], id);
      assert FromButtons(cs)[..n] == FromButtons(cs[..n]);
      assert OfButton(FromButton(cs[n]).field, cs[n]);
    }
  }

  lemma {:induction false} ValueFields(cs: seq<ValueCaps>, id: Byte)
    ensures OfCaps(FieldsFor(FromValues(cs), id), [], ValuesWith(cs, id))
  {
    if cs != [] {
      var n := |cs| - 1;
      ValueFields(cs[..n], id);
      assert FromValues(cs)[..n] == FromValues(cs[..n]);
      assert OfValue(FromValue(cs[n]).field, cs[n]);
    }
  }

  lemma {:induction false} FieldsForConcat(a: seq<Captured>, b: seq<Captured>, id: Byte)
    ensures FieldsFor(a + b, id) == FieldsFor(a, id) + FieldsFor(b, id)
  {
    if b == [] {
      assert a + b == a;
    } else {
      FieldsForConcat(a, b[..|b| - 1], id);
      LastOfConcat(a, b);
    }
  }

  lemma KindFields(k: KindCaps, id: Byte)
    ensures OfCaps(FieldsFor(k.All(), id), ButtonsWith(k.buttons.Read(), id), ValuesWith(k.values.Read(), id))
  {
    ButtonFields(k.buttons.Read(), id);
    ValueFields(k.values.Read(), id);
    FieldsForConcat(FromButtons(k.buttons.Read()), FromValues(k.values.Read()), id);
  }

  /** The reports of one kind hold the fields of that kind's capabilities with the id. */
  predicate ReportsFrom(rs: seq<ReportInfo>, k: KindCaps, id: Byte) {
    OfCaps(FieldsWith(rs, id), ButtonsWith(k.buttons.Read(), id), ValuesWith(k.values.Read(), id))
  }

  lemma CollectedFromRaw(k: KindCaps, length: U16, id: Byte)
    ensures ReportsFrom(WithLength(Collect([], k.All()), length), k, id)
  {
    CollectGroups(k.All());
    LengthKeepsGroups(Collect([], k.All()), length, id);
    KindFields(k, id);
  }

  /** Every captured field, in the profile that is saved, belongs to the raw capability at its
      place: under each report id the buttons of that kind and id, then the values, in array order. */
  lemma ProfileFromRaw(identity: DeviceProfile, caps: DeviceCaps, id: Byte)
    ensures ReportsFrom(Profiled(identity, caps).inputReports, caps.input, id)
    ensures ReportsFrom(Profiled(identity, caps).outputReports, caps.output, id)
    ensures ReportsFrom(Profiled(identity, caps).featureReports, caps.feature, id)
  {
    CollectedFromRaw(caps.input, caps.inputLength, id);
    CollectedFromRaw(caps.output, caps.outputLength, id);
    CollectedFromRaw(caps.feature, caps.featureLength, id);
  }

  // ---------- the parsed descriptor ----------

  /** The parsed field of a button capability, in the given kind, report and collection. */
  predicate ParsedButton(x: Field, c: ButtonCaps, kind: Kind, path: seq<Collection>) {
    && x.kind == kind && x.reportId == c.reportId && x.path == path
    && x.usagePage == c.usagePage && |x.usages| == 1 && UsagesAre(c.usages, x.usages[0].first, x.usages[0].last)
    && x.logicalMin == 0 && x.logicalMax == 1 && x.reportSize == 1
    && (match c.usages
        case InRange(first, last) => x.reportCount == (last - first + 1) % 0x1_0000
        case Single(_) => x.reportCount == 1)
    && !x.constant && x.variable && x.relative == !c.isAbsolute && !x.nullState
  }

  predicate ParsedValue(x: Field, c: ValueCaps, kind: Kind, path: seq<Collection>) {
    && x.kind == kind && x.reportId == c.reportId && x.path == path
    && x.usagePage == c.usagePage && |x.usages| == 1 && UsagesAre(c.usages, x.usages[0].first, x.usages[0].last)
    && x.logicalMin == c.logicalMin && x.logicalMax == c.logicalMax
    && x.reportSize == c.bitSize && x.reportCount == c.reportCount
    && !x.constant && x.variable && x.relative == !c.isAbsolute && x.nullState == c.hasNull
  }

  predicate ParsedCaps(xs: seq<Field>, bs: seq<ButtonCaps>, vs: seq<ValueCaps>, kind: Kind, path: seq<Collection>) {
    && |xs| == |bs| + |vs|
    && (forall k :: 0 <= k < |bs| ==> ParsedButton(xs[k], bs[k], kind, path))
    && (forall k :: 0 <= k < |vs| ==> ParsedValue(xs[|bs| + k], vs[k], kind, path))
  }

  lemma DeclaredButton(x: Field, f: FieldCaps, c: ButtonCaps, kind: Kind, path: seq<Collection>)
    requires OfButton(f, c)
    ensures x == Declared(f, kind, c.reportId, path) <==> ParsedButton(x, c, kind, path)
  {
    var d := Declared(f, kind, c.reportId, path);
    assert d.usages == [UsageRange(f.usageMin, f.usageMax)];
    if ParsedButton(x, c, kind, path) {
      assert x.usages == [x.usages[0]];
    }
  }

  lemma DeclaredValue(x: Field, f: FieldCaps, c: ValueCaps, kind: Kind, path: seq<Collection>)
    requires OfValue(f, c)
    ensures x == Declared(f, kind, c.reportId, path) <==> ParsedValue(x, c, kind, path)
  {
    if ParsedValue(x, c, kind, path) {
      assert x.usages == [x.usages[0]];
    }
  }

  lemma {:induction false} AllHaveId(bs: seq<ButtonCaps>, vs: seq<ValueCaps>, id: Byte)
    ensures forall k :: 0 <= k < |ButtonsWith(bs, id)| ==> ButtonsWith(bs, id)[k].reportId == id
    ensures forall k :: 0 <= k < |ValuesWith(vs, id)| ==> ValuesWith(vs, id)[k].reportId == id
    decreases |bs| + |vs|
  {
    if bs != [] {
      AllHaveId(bs[..|bs| - 1], vs, id);
    } else if vs != [] {
      AllHaveId(bs, vs[..|vs| - 1], id);
    }
  }

  lemma DeclaredCaps(xs: seq<Field>, fs: seq<FieldCaps>, bs: seq<ButtonCaps>, vs: seq<ValueCaps>,
                     kind: Kind, id: Byte, path: seq<Collection>)
    requires OfCaps(fs, bs, vs)
    requires forall k :: 0 <= k < |bs| ==> bs[k].reportId == id
    requires forall k :: 0 <= k < |vs| ==> vs[k].reportId == id
    ensures xs == FieldsDeclared(fs, kind, id, path) <==> ParsedCaps(xs, bs, vs, kind, path)
  {
    if |xs| == |fs| {
      forall k | 0 <= k < |bs|
        ensures xs[k] == Declared(fs[k], kind, id, path) <==> ParsedButton(xs[k], bs[k], kind, path)
      {
        DeclaredButton(xs[k], fs[k], bs[k], kind, path);
      }
      forall k | 0 <= k < |vs|
        ensures xs[|bs| + k] == Declared(fs[|bs| + k], kind, id, path) <==> ParsedValue(xs[|bs| + k], vs[k], kind, path)
      {
        DeclaredValue(xs[|bs| + k], fs[|bs| + k], vs[k], kind, path);
      }
      if ParsedCaps(xs, bs, vs, kind, path) {
        forall i | 0 <= i < |xs| ensures xs[i] == Declared(fs[i], kind, id, path) {
          if i >= |bs| {
            var k := i - |bs|;
            assert xs[|bs| + k] == xs[i] && fs[|bs| + k] == fs[i];
            assert ParsedValue(xs[|bs| + k], vs[k], kind, path);
            DeclaredValue(xs[i], fs[i], vs[k], kind, path);
          }
        }
      }
    }
  }

  /** The fields parsed for one kind and report id are those of the raw capabilities with it. */
  predicate KindParsed(parsed: seq<Field>, k: KindCaps, kind: Kind, id: Byte, path: seq<Collection>) {
    ParsedCaps(Select(parsed, kind, id), ButtonsWith(k.buttons.Read(), id), ValuesWith(k.values.Read(), id), kind, path)
  }

  /** `parsed` is what a parser reads from the built descriptor, and `path` its one collection. */
  predicate Reads(identity: DeviceProfile, caps: DeviceCaps, parsed: seq<Field>, path: seq<Collection>) {
    var p := Profiled(identity, caps);
    Parse(Descriptor(p)) == Some(parsed) && path == TopPath(p)
  }

  lemma KindFromRaw(identity: DeviceProfile, caps: DeviceCaps, kind: Kind, id: Byte,
                    parsed: seq<Field>, path: seq<Collection>)
    requires Reads(identity, caps, parsed, path)
    ensures Recovered(identity, caps, kind, id) <==> KindParsed(parsed, KindOf(caps, kind), kind, id, path)
  {
    var k := KindOf(caps, kind);
    AllOfKind(caps, kind);
    KindFields(k, id);
    AllHaveId(k.buttons.Read(), k.values.Read(), id);
    DeclaredCaps(Select(parsed, kind, id), FieldsFor(CapsOf(caps, kind), id),
                 ButtonsWith(k.buttons.Read(), id), ValuesWith(k.values.Read(), id), kind, id, path);
  }

  // ---------- the condition, on the raw capabilities ----------

  function ButtonIds(cs: seq<ButtonCaps>): (ids: seq<Byte>)
    ensures |ids| == |cs| && forall i :: 0 <= i < |cs| ==> ids[i] == cs[i].reportId
  {
    if cs == [] then [] else ButtonIds(cs[..|cs| - 1]) + [cs[|cs| - 1].reportId]
  }

  function ValueIds(cs: seq<ValueCaps>): (ids: seq<Byte>)
    ensures |ids| == |cs| && forall i :: 0 <= i < |cs| ==> ids[i] == cs[i].reportId
  {
    if cs == [] then [] else ValueIds(cs[..|cs| - 1]) + [cs[|cs| - 1].reportId]
  }

  /** The report ids of the capabilities of one kind, buttons before values. */
  function RawIds(k: KindCaps): seq<Byte> {
    ButtonIds(k.buttons.Read()) + ValueIds(k.values.Read())
  }

  predicate AllZero(ids: seq<Byte>) { forall i :: 0 <= i < |ids| ==> ids[i] == 0 }

  /** Capabilities without an id come first in their kind, and after no kind that has ids. */
  predicate ZerosFirst(inputs: seq<Byte>, outputs: seq<Byte>, features: seq<Byte>) {
    && (0 in inputs ==> inputs[0] == 0)
    && (0 in outputs ==> outputs[0] == 0 && AllZero(inputs))
    && (0 in features ==> features[0] == 0 && AllZero(inputs) && AllZero(outputs))
  }

  /** Neither extent falls into a band that is read with the wrong sign. */
  predicate ValueEncodable(c: ValueCaps) {
    && !(128 <= c.logicalMin <= 255) && !(32768 <= c.logicalMin <= 65535)
    && (if c.logicalMin >= 0 then c.logicalMax >= 0
        else !(128 <= c.logicalMax <= 255) && !(32768 <= c.logicalMax <= 65535))
  }

  predicate ValuesEncodable(k: KindCaps) {
    forall i :: 0 <= i < |k.values.Read()| ==> ValueEncodable(k.values.Read()[i])
  }

  predicate RawFaithful(caps: DeviceCaps) {
    && ValuesEncodable(caps.input) && ValuesEncodable(caps.output) && ValuesEncodable(caps.feature)
    && ZerosFirst(RawIds(caps.input), RawIds(caps.output), RawIds(caps.feature))
  }

  /** The report ids of captured fields. */
  function IdsOf(cs: seq<Captured>): (ids: seq<Byte>)
    ensures |ids| == |cs| && forall i :: 0 <= i < |cs| ==> ids[i] == cs[i].reportId
  {
    if cs == [] then [] else IdsOf(cs[..|cs| - 1]) + [cs[|cs| - 1].reportId]
  }

  lemma {:induction false} ButtonAt(cs: seq<ButtonCaps>, i: nat)
    requires i < |cs|
    ensures FromButtons(cs)[i] == FromButton(cs[i])
  {
    if i < |cs| - 1 {
      ButtonAt(cs[..|cs| - 1], i);
    }
  }

  lemma {:induction false} ValueAt(cs: seq<ValueCaps>, i: nat)
    requires i < |cs|
    ensures FromValues(cs)[i] == FromValue(cs[i])
  {
    if i < |cs| - 1 {
      ValueAt(cs[..|cs| - 1], i);
    }
  }

  lemma CapturedIds(k: KindCaps)
    ensures IdsOf(k.All()) == RawIds(k)
  {
    var bs, vs, all := k.buttons.Read(), k.values.Read(), k.All();
    forall i | 0 <= i < |all| ensures all[i].reportId == RawIds(k)[i] {
      if i < |bs| {
        ButtonAt(bs, i);
      } else {
        ValueAt(vs, i - |bs|);
      }
    }
  }

  lemma CapturedEncodable(k: KindCaps)
    ensures Encodable(k.All()) <==> ValuesEncodable(k)
  {
    var bs, vs, all := k.buttons.Read(), k.values.Read(), k.All();
    forall i | 0 <= i < |bs| ensures RangeEncodable(all[i].field) {
      ButtonAt(bs, i);
    }
    forall i | 0 <= i < |vs| ensures RangeEncodable(all[|bs| + i].field) <==> ValueEncodable(vs[i]) {
      ValueAt(vs, i);
    }
    if ValuesEncodable(k) {
      forall i | 0 <= i < |all| ensures RangeEncodable(all[i].field) {
        if i >= |bs| {
          var j := i - |bs|;
          assert RangeEncodable(all[|bs| + j].field) <==> ValueEncodable(vs[j]);
        }
      }
    }
  }

  /** The ids in order of first appearance begin with the first one and are the same ids. */
  lemma {:induction false} FirstIdsAre(cs: seq<Captured>)
    ensures cs != [] ==> FirstIds(cs) != [] && FirstIds(cs)[0] == IdsOf(cs)[0]
    ensures forall id :: id in FirstIds(cs) <==> id in IdsOf(cs)
  {
    if cs != [] {
      FirstIdsAre(cs[..|cs| - 1]);
    }
  }

  lemma ZeroFirstOnce(ids: seq<Byte>)
    requires Distinct(ids)
    ensures NoLateZero(ids) <==> (0 in ids ==> ids[0] == 0)
  {
    if 0 in ids {
      var i :| 0 <= i < |ids| && ids[i] == 0;
      assert ids[0] == 0 || i > 0;
    }
  }

  lemma NoLateZeroConcat(a: seq<Byte>, b: seq<Byte>)
    ensures NoLateZero(a + b) <==> NoLateZero(a) && NoLateZero(b) && (0 in b ==> AllZero(a))
  {
    var ab := a + b;
    assert forall i :: 0 <= i < |a| ==> ab[i] == a[i];
    assert forall j :: 0 <= j < |b| ==> ab[|a| + j] == b[j];
    if NoLateZero(ab) && 0 in b {
      var j :| 0 <= j < |b| && b[j] == 0;
      assert forall i :: 0 <= i < |a| ==> ab[i] == 0 || ab[|a| + j] != 0;
    }
  }

  lemma ZeroMembers(ids: seq<Byte>)
    ensures AllZero(ids) <==> forall id: Byte :: id in ids ==> id == 0
  {
    if forall id: Byte :: id in ids ==> id == 0 {
      forall i | 0 <= i < |ids| ensures ids[i] == 0 {
        assert ids[i] in ids;
      }
    }
  }

  lemma SameZeros(cs: seq<Captured>)
    ensures var firsts, ids := FirstIds(cs), IdsOf(cs);
            && (NoLateZero(firsts) <==> (0 in ids ==> ids[0] == 0))
            && (0 in firsts <==> 0 in ids) && (AllZero(firsts) <==> AllZero(ids))
  {
    FirstIdsAre(cs);
    CollectIds(cs);
    ZeroFirstOnce(FirstIds(cs));
    var firsts, ids := FirstIds(cs), IdsOf(cs);
    ZeroMembers(firsts);
    ZeroMembers(ids);
  }

  lemma NoLateZeroOfThree(a: seq<Byte>, b: seq<Byte>, c: seq<Byte>)
    ensures NoLateZero(a + b + c)
       <==> && NoLateZero(a) && NoLateZero(b) && NoLateZero(c)
            && (0 in b ==> AllZero(a)) && (0 in c ==> AllZero(a) && AllZero(b))
  {
    NoLateZeroConcat(a, b);
    NoLateZeroConcat(a + b, c);
    var ab := a + b;
    assert forall i :: 0 <= i < |a| ==> ab[i] == a[i];
    assert forall j :: 0 <= j < |b| ==> ab[|a| + j] == b[j];
    assert AllZero(ab) <==> AllZero(a) && AllZero(b);
  }

  lemma IdsInOrder(caps: DeviceCaps)
    ensures IdsFaithful(caps) <==> ZerosFirst(RawIds(caps.input), RawIds(caps.output), RawIds(caps.feature))
  {
    SameZeros(caps.input.All());
    SameZeros(caps.output.All());
    SameZeros(caps.feature.All());
    CapturedIds(caps.input);
    CapturedIds(caps.output);
    CapturedIds(caps.feature);
    NoLateZeroOfThree(FirstIds(caps.input.All()), FirstIds(caps.output.All()), FirstIds(caps.feature.All()));
  }

  lemma RawIsFaithful(caps: DeviceCaps)
    ensures CapsFaithful(caps) <==> RawFaithful(caps)
  {
    CapturedEncodable(caps.input);
    CapturedEncodable(caps.output);
    CapturedEncodable(caps.feature);
    IdsInOrder(caps);
  }

  /** The parsed fields of one kind, report id by report id. */
  predicate ParsedFrom(parsed: seq<Field>, k: KindCaps, kind: Kind, path: seq<Collection>) {
    forall id: Byte :: KindParsed(parsed, k, kind, id, path)
  }

  predicate KindRecovered(identity: DeviceProfile, caps: DeviceCaps, kind: Kind) {
    forall id: Byte :: Recovered(identity, caps, kind, id)
  }

  predicate AllParsed(parsed: seq<Field>, caps: DeviceCaps, path: seq<Collection>) {
    forall kind: Kind :: ParsedFrom(parsed, KindOf(caps, kind), kind, path)
  }

  lemma ParsedIsRecovered(identity: DeviceProfile, caps: DeviceCaps, kind: Kind,
                          parsed: seq<Field>, path: seq<Collection>)
    requires Reads(identity, caps, parsed, path)
    ensures ParsedFrom(parsed, KindOf(caps, kind), kind, path) <==> KindRecovered(identity, caps, kind)
  {
    forall id: Byte
      ensures KindParsed(parsed, KindOf(caps, kind), kind, id, path) <==> Recovered(identity, caps, kind, id)
    {
      KindFromRaw(identity, caps, kind, id, parsed, path);
    }
  }

  lemma ParsedIffFaithful(identity: DeviceProfile, caps: DeviceCaps, parsed: seq<Field>, path: seq<Collection>)
    requires Reads(identity, caps, parsed, path)
    ensures AllParsed(parsed, caps, path) <==> RawFaithful(caps)
  {
    forall kind: Kind
      ensures ParsedFrom(parsed, KindOf(caps, kind), kind, path) <==> KindRecovered(identity, caps, kind)
    {
      ParsedIsRecovered(identity, caps, kind, parsed, path);
    }
    RecoveredIffFaithful(identity, caps);
  }

  lemma RecoveredByKind(identity: DeviceProfile, caps: DeviceCaps)
    ensures (forall kind: Kind :: KindRecovered(identity, caps, kind))
       <==> forall kind: Kind, id: Byte :: Recovered(identity, caps, kind, id)
  {
    if forall kind: Kind :: KindRecovered(identity, caps, kind) {
      forall kind: Kind, id: Byte ensures Recovered(identity, caps, kind, id) {
        assert KindRecovered(identity, caps, kind);
      }
    }
  }

  lemma RecoveredIffFaithful(identity: DeviceProfile, caps: DeviceCaps)
    ensures (forall kind: Kind :: KindRecovered(identity, caps, kind)) <==> RawFaithful(caps)
  {
    RecoveredByKind(identity, caps);
    PipelinePreservesMeaning(identity, caps);
    RawIsFaithful(caps);
  }

  /** From the raw capabilities to the parser: for every report id and each kind, the parsed fields
      are those of the button capabilities with that id and then of the value capabilities, member
      by member, in the collection of the device's usage, if and only if the capabilities are
      faithful. */
  lemma {:induction false} PipelineFromRaw(identity: DeviceProfile, caps: DeviceCaps)
    ensures var page := if caps.usagePage == 0 then 0xFF00 else caps.usagePage;
            var usage := if caps.usage == 0 then 1 else caps.usage;
            var top := [Collection(1, page, [UsageRange(usage, usage)])];
            var parsed := Parse(Descriptor(Profiled(identity, caps)));
            parsed.Some? && (AllParsed(parsed.value, caps, top) <==> RawFaithful(caps))
  {
    var p := Profiled(identity, caps);
    DescriptorParses(p);
    ParsedIffFaithful(identity, caps, Parse(Descriptor(p)).value, TopPath(p));
  }
}
