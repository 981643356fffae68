/** descriptor_builder.cpp: a captured profile is compiled to a HID report
    descriptor, and what a HID parser makes of the result. */
module DescriptorBuilder {
  import opened Core
  import opened Profiles
  import opened HidItems

  // ---------- the items of a descriptor ----------

  function GlobalEmission(tag: Nibble, v: I64): Emission { Emission(tag, Global, v, true) }

  function LocalEmission(tag: Nibble, v: I64): Emission { Emission(tag, Local, v, true) }

  function MainTag(kind: Kind): Nibble {
    match kind
    case Input => 0x8
    case Output => 0x9
    case Feature => 0xB
  }

  /** Variable always; the bits are disjoint, so `|=` is a sum. */
  function MainFlags(f: FieldCaps): Byte {
    0x02 + (if f.isAbsolute then 0 else 0x04) + (if f.hasNull then 0x40 else 0)
  }

  function UsageItems(f: FieldCaps): seq<Emission> {
    if f.usageMin == f.usageMax then [LocalEmission(0x0, f.usageMin)]
    else [LocalEmission(0x1, f.usageMin), LocalEmission(0x2, f.usageMax)]
  }

  function RangeItems(f: FieldCaps): seq<Emission> {
    [GlobalEmission(0x1, f.logicalMin), GlobalEmission(0x2, f.logicalMax),
     GlobalEmission(0x7, f.reportSize), GlobalEmission(0x9, f.reportCount)]
  }

  function FieldItems(f: FieldCaps, kind: Kind): seq<Emission> {
    [GlobalEmission(0x0, f.usagePage)] + UsageItems(f) + RangeItems(f)
    + [Emission(MainTag(kind), Main, MainFlags(f), true)]
  }

  function FieldsItems(fs: seq<FieldCaps>, kind: Kind): seq<Emission> {
    if fs == [] then [] else FieldsItems(fs[..|fs| - 1], kind) + FieldItems(fs[|fs| - 1], kind)
  }

  function ReportItems(r: ReportInfo, kind: Kind): seq<Emission> {
    if r.fields == [] then []
    else (if r.reportId != 0 then [GlobalEmission(0x8, r.reportId)] else []) + FieldsItems(r.fields, kind)
  }

  datatype Section = Section(kind: Kind, report: ReportInfo)

  function Tagged(kind: Kind, rs: seq<ReportInfo>): (ss: seq<Section>)
    ensures |ss| == |rs|
    ensures forall i :: 0 <= i < |ss| ==> ss[i] == Section(kind, rs[i])
  {
    if rs == [] then [] else [Section(kind, rs[0])] + Tagged(kind, rs[1..])
  }

  /** All reports in the order the builder visits them. */
  function Sections(p: DeviceProfile): seq<Section> {
    Tagged(Input, p.inputReports) + Tagged(Output, p.outputReports) + Tagged(Feature, p.featureReports)
  }

  function SectionsItems(ss: seq<Section>): seq<Emission> {
    if ss == [] then []
    else SectionsItems(ss[..|ss| - 1]) + ReportItems(ss[|ss| - 1].report, ss[|ss| - 1].kind)
  }

  function TopPage(p: DeviceProfile): U16 { if p.usagePage != 0 then p.usagePage else 0xFF00 }

  function TopUsage(p: DeviceProfile): U16 { if p.usage != 0 then p.usage else 1 }

  function Header(p: DeviceProfile): seq<Emission> {
    [GlobalEmission(0x0, TopPage(p)), LocalEmission(0x0, TopUsage(p)), Emission(0xA, Main, 1, true)]
  }

  const END_COLLECTION: Emission := Emission(0xC, Main, 0, false)

  function DescriptorItems(p: DeviceProfile): seq<Emission> {
    Header(p) + SectionsItems(Sections(p)) + [END_COLLECTION]
  }

  function Descriptor(p: DeviceProfile): seq<Byte> {
    EmitAll(DescriptorItems(p))
  }

  // ---------- the builder ----------

  method EmitUsagePage(out: ItemWriter, page: U16)
    requires out.Valid()
    modifies out
    ensures out.Valid() && out.items == old(out.items) + [GlobalEmission(0x0, page)]
  {
    out.Emit(0x0, Global, page, true);
  }

  method EmitUsages(out: ItemWriter, f: FieldCaps)
    requires out.Valid()
    modifies out
    ensures out.Valid() && out.items == old(out.items) + UsageItems(f)
  {
    if f.usageMin == f.usageMax {
      out.Emit(0x0, Local, f.usageMin, true);
    } else {
      out.Emit(0x1, Local, f.usageMin, true);
      out.Emit(0x2, Local, f.usageMax, true);
    }
  }

  method EmitMain(out: ItemWriter, f: FieldCaps, kind: Kind)
    requires out.Valid()
    modifies out
    ensures out.Valid() && out.items == old(out.items) + [Emission(MainTag(kind), Main, MainFlags(f), true)]
  {
    var flags := 0x02;
    if !f.isAbsolute {
      flags := flags + 0x04;
    }
    if f.hasNull {
      flags := flags + 0x40;
    }
    out.Emit(MainTag(kind), Main, flags, true);
  }

  method EmitRanges(out: ItemWriter, f: FieldCaps)
    requires out.Valid()
    modifies out
    ensures out.Valid() && out.items == old(out.items) + RangeItems(f)
  {
    out.Emit(0x1, Global, f.logicalMin, true);
    out.Emit(0x2, Global, f.logicalMax, true);
    out.Emit(0x7, Global, f.reportSize, true);
    out.Emit(0x9, Global, f.reportCount, true);
  }

  lemma FieldItemsSplit(before: seq<Emission>, f: FieldCaps, kind: Kind)
    ensures before + [GlobalEmission(0x0, f.usagePage)] + UsageItems(f) + RangeItems(f)
            + [Emission(MainTag(kind), Main, MainFlags(f), true)]
         == before + FieldItems(f, kind)
  {}

  method EmitField(out: ItemWriter, f: FieldCaps, kind: Kind)
    requires out.Valid()
    modifies out
    ensures out.Valid() && out.items == old(out.items) + FieldItems(f, kind)
  {
    FieldItemsSplit(out.items, f, kind);
    EmitUsagePage(out, f.usagePage);
    EmitUsages(out, f);
    EmitRanges(out, f);
    EmitMain(out, f, kind);
  }

  lemma FieldsItemsStep(fs: seq<FieldCaps>, i: nat, kind: Kind)
    requires i < |fs|
    ensures FieldsItems(fs[..i + 1], kind) == FieldsItems(fs[..i], kind) + FieldItems(fs[i], kind)
  {
    TakeNext(fs, i);
  }

  method EmitFields(out: ItemWriter, fs: seq<FieldCaps>, kind: Kind)
    requires out.Valid()
    modifies out
    ensures out.Valid() && out.items == old(out.items) + FieldsItems(fs, kind)
  {
    for i := 0 to |fs|
      invariant out.Valid() && out.items == old(out.items) + FieldsItems(fs[..i], kind)
    {
      AppendAssociates(old(out.items), FieldsItems(fs[..i], kind), FieldItems(fs[i], kind));
      EmitField(out, fs[i], kind);
      FieldsItemsStep(fs, i, kind);
    }
    assert fs[..|fs|] == fs;
  }

  method EmitReportSection(out: ItemWriter, r: ReportInfo, kind: Kind)
    requires out.Valid()
    modifies out
    ensures out.Valid() && out.items == old(out.items) + ReportItems(r, kind)
  {
    if r.fields == [] {
      return;
    }
    ghost var idItems: seq<Emission> := [];
    if r.reportId != 0 {
      out.Emit(0x8, Global, r.reportId, true);
      idItems := [GlobalEmission(0x8, r.reportId)];
    }
    EmitFields(out, r.fields, kind);
    AppendAssociates(old(out.items), idItems, FieldsItems(r.fields, kind));
  }

  lemma SectionsItemsStep(ss: seq<Section>, s: Section)
    ensures SectionsItems(ss + [s]) == SectionsItems(ss) + ReportItems(s.report, s.kind)
  {
    assert (ss + [s])[..|ss|] == ss;
  }

  lemma TaggedStep(kind: Kind, rs: seq<ReportInfo>, i: nat)
    requires i < |rs|
    ensures Tagged(kind, rs[..i + 1]) == Tagged(kind, rs[..i]) + [Section(kind, rs[i])]
  {}

  /** One of the three loops over reports; `done` are the sections emitted before it. */
  method EmitReports(out: ItemWriter, rs: seq<ReportInfo>, kind: Kind,
                     ghost top: seq<Emission>, ghost done: seq<Section>)
    requires out.Valid() && out.items == top + SectionsItems(done)
    modifies out
    ensures out.Valid() && out.items == top + SectionsItems(done + Tagged(kind, rs))
  {
    assert done + Tagged(kind, rs[..0]) == done;
    for i := 0 to |rs|
      invariant out.Valid() && out.items == top + SectionsItems(done + Tagged(kind, rs[..i]))
    {
      ghost var now := done + Tagged(kind, rs[..i]);
      EmitReportSection(out, rs[i], kind);
      AppendAssociates(top, SectionsItems(now), ReportItems(rs[i], kind));
      SectionsItemsStep(now, Section(kind, rs[i]));
      TaggedStep(kind, rs, i);
      AppendAssociates(done, Tagged(kind, rs[..i]), [Section(kind, rs[i])]);
    }
    assert rs[..|rs|] == rs;
  }

  method EmitHeader(out: ItemWriter, p: DeviceProfile)
    requires out.Valid() && out.items == []
    modifies out
    ensures out.Valid() && out.items == Header(p)
  {
    EmitUsagePage(out, if p.usagePage != 0 then p.usagePage else 0xFF00);
    out.Emit(0x0, Local, if p.usage != 0 then p.usage else 0x01, true);
    out.Emit(0xA, Main, 1, true);
  }

  method EmitAllReports(out: ItemWriter, p: DeviceProfile, ghost top: seq<Emission>)
    requires out.Valid() && out.items == top
    modifies out
    ensures out.Valid() && out.items == top + SectionsItems(Sections(p))
  {
    ghost var inputs := Tagged(Input, p.inputReports);
    ghost var outputs := Tagged(Output, p.outputReports);
    assert [] + inputs == inputs && top + SectionsItems([]) == top;
    EmitReports(out, p.inputReports, Input, top, []);
    EmitReports(out, p.outputReports, Output, top, inputs);
    EmitReports(out, p.featureReports, Feature, top, inputs + outputs);
  }

  method BuildReportDescriptor(p: DeviceProfile) returns (descriptor: seq<Byte>)
    ensures descriptor == Descriptor(p)
  {
    var out := new ItemWriter();
    EmitHeader(out, p);
    EmitAllReports(out, p, Header(p));
    out.Emit(0xC, Main, 0, false);
    descriptor := out.bytes;
  }
}
