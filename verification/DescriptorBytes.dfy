/** Descriptors as bytes: the top-level collection of a built one, and the toolkit's own
    hand-written descriptor in the same parser. */
module DescriptorBytes {
  import opened Core
  import opened Profiles
  import opened Reports
  import opened HidItems
  import opened HidParser
  import opened DescriptorBuilder
  import opened DescriptorMeaning

  // ---------- the top-level collection ----------

  lemma {:induction false} ReadPaths(ss: seq<Section>, path: seq<Collection>)
    ensures forall i :: 0 <= i < |AllRead(ss, path)| ==> AllRead(ss, path)[i].path == path
  {
    if ss != [] {
      ReadPaths(ss[..|ss| - 1], path);
    }
  }

  lemma {:induction false} ItemsTaken(es: seq<Emission>, n: nat)
    requires n <= |es|
    ensures |ItemsOf(es)| == |es| && ItemsOf(es)[..n] == ItemsOf(es[..n])
    decreases |es|
  {
    if n == 0 {
      if es != [] {
        ItemsTaken(es[1..], 0);
      }
    } else {
      ItemsTaken(es[1..], n - 1);
      assert es[..n][1..] == es[1..][..n - 1];
      assert ItemsOf(es)[..n] == [ItemOf(es[0])] + ItemsOf(es[1..])[..n - 1];
    }
  }

  lemma DescriptorReads(p: DeviceProfile)
    ensures ReadItems(Descriptor(p)) == Some(ItemsOf(DescriptorItems(p)))
  {
    var es := DescriptorItems(p);
    UniqueDecodability(es, []);
    assert EmitAll(es) + [] == EmitAll(es) && ItemsOf(es) + [] == ItemsOf(es);
  }

  /** Every built descriptor opens one application collection with its first three items. It has
      the profile's usage page and usage, or the vendor page 0xFF00 and usage 1 for a 0, and every
      field is in it. */
  lemma {:induction false} TopCollection(p: DeviceProfile)
    ensures var page := if p.usagePage == 0 then 0xFF00 else p.usagePage;
            var usage := if p.usage == 0 then 1 else p.usage;
            var top := [Collection(1, page, [UsageRange(usage, usage)])];
            var items, parsed := ReadItems(Descriptor(p)), Parse(Descriptor(p));
            && items.Some? && |items.value| > 3 && Run(START, items.value[..3]).path == top
            && parsed.Some? && forall i :: 0 <= i < |parsed.value| ==> parsed.value[i].path == top
  {
    var es := DescriptorItems(p);
    DescriptorReads(p);
    ItemsTaken(es, 3);
    RunEmittedIsRun(START, es[..3]);
    WellNested(p, 3);
    DescriptorParses(p);
    ReadPaths(Sections(p), TopPath(p));
  }

  // ---------- the bytes of a built descriptor ----------

  /** An item with its data in as few of 1, 2 or 4 bytes as hold it, low byte first; `code` is the
      tag and the type. */
  function ShortItem(code: Byte, v: I32): seq<Byte>
    requires code % 4 == 0
  {
    if -128 <= v <= 255 then [code + 1, v % 256]
    else if -32768 <= v <= 65535 then [code + 2, v % 256, v / 256 % 256]
    else [code + 3, v % 256, v / 256 % 256, v / 0x1_0000 % 256, v / 0x100_0000 % 256]
  }

  function UsagesBytes(f: FieldCaps): seq<Byte> {
    if f.usageMin == f.usageMax then ShortItem(0x08, f.usageMin)
    else ShortItem(0x18, f.usageMin) + ShortItem(0x28, f.usageMax)
  }

  function RangesBytes(f: FieldCaps): seq<Byte> {
    ShortItem(0x14, f.logicalMin) + ShortItem(0x24, f.logicalMax)
    + (ShortItem(0x74, f.reportSize) + ShortItem(0x94, f.reportCount))
  }

  /** A field: page, usage or usage range, extents, size, count, and the main item with its flags. */
  function FieldBytes(f: FieldCaps, main: Byte): seq<Byte> {
    ShortItem(0x04, f.usagePage) + UsagesBytes(f) + RangesBytes(f)
    + [main, if f.isAbsolute then if f.hasNull then 0x42 else 0x02 else if f.hasNull then 0x46 else 0x06]
  }

  function FieldsBytes(fs: seq<FieldCaps>, main: Byte): seq<Byte> {
    if fs == [] then [] else FieldsBytes(fs[..|fs| - 1], main) + FieldBytes(fs[|fs| - 1], main)
  }

  /** A report: nothing without fields; no id item for id 0. */
  function ReportBytes(r: ReportInfo, main: Byte): seq<Byte> {
    if r.fields == [] then []
    else (if r.reportId == 0 then [] else [0x85, r.reportId]) + FieldsBytes(r.fields, main)
  }

  function ReportsBytes(rs: seq<ReportInfo>, main: Byte): seq<Byte> {
    if rs == [] then [] else ReportsBytes(rs[..|rs| - 1], main) + ReportBytes(rs[|rs| - 1], main)
  }

  lemma TwoLowBytes(u: nat)
    ensures LittleEndian(u, 1) == [u % 256] && LittleEndian(u, 2) == [u % 256, u / 256 % 256]
  {
    assert LittleEndian(u / 256, 1) == [u / 256 % 256] + LittleEndian(u / 256 / 256, 0);
  }

  lemma FourLowBytes(u: nat)
    ensures LittleEndian(u, 4)
         == [u % 256, u / 256 % 256, u / 256 / 256 % 256, u / 256 / 256 / 256 % 256]
  {
    var w := u / 256 / 256;
    TwoLowBytes(w);
    assert LittleEndian(u / 256, 3) == [u / 256 % 256] + LittleEndian(w, 2);
  }

  lemma Shifts(v: int)
    ensures v / 256 / 256 == v / 0x1_0000 && v / 256 / 256 / 256 == v / 0x100_0000
  {}

  lemma AddMultiple(v: int, m: int)
    ensures (v + 256 * m) % 256 == v % 256 && (v + 256 * m) / 256 == v / 256 + m
  {}

  /** Going over to 64 bits changes none of the four low bytes. */
  lemma WideBytes(v: I32)
    ensures var u := v % 0x1_0000_0000_0000_0000;
            && u % 256 == v % 256 && u / 256 % 256 == v / 256 % 256
            && u / 256 / 256 % 256 == v / 0x1_0000 % 256 && u / 256 / 256 / 256 % 256 == v / 0x100_0000 % 256
  {
    Shifts(v);
    var high := if v < 0 then 0x100_0000_0000 else 0;
    assert v % 0x1_0000_0000_0000_0000 == v + 256 * (256 * (256 * high));
    AddMultiple(v, 256 * (256 * high));
    AddMultiple(v / 256, 256 * high);
    AddMultiple(v / 256 / 256, high);
    AddMultiple(v / 256 / 256 / 256, high / 256);
  }

  lemma OneItem(tag: Nibble, typ: ItemType, v: I32)
    ensures EmitAll([Emission(tag, typ, v, true)]) == ShortItem(tag * 16 + typ.Code() * 4, v)
  {
    var e, u := Emission(tag, typ, v, true), v % 0x1_0000_0000_0000_0000;
    WideBytes(v);
    TwoLowBytes(u);
    FourLowBytes(u);
    assert EmitAll([e]) == ItemBytes(e) + EmitAll([]);
  }

  lemma TwoItems(a: Emission, b: Emission, x: seq<Byte>, y: seq<Byte>)
    requires EmitAll([a]) == x && EmitAll([b]) == y
    ensures EmitAll([a, b]) == x + y
  {
    assert [a, b] == [a] + [b];
    EmitAllConcat([a], [b]);
  }

  lemma UsagesAre(f: FieldCaps)
    ensures EmitAll(UsageItems(f)) == UsagesBytes(f)
  {
    OneItem(0x0, Local, f.usageMin);
    OneItem(0x1, Local, f.usageMin);
    OneItem(0x2, Local, f.usageMax);
    if f.usageMin != f.usageMax {
      TwoItems(LocalEmission(0x1, f.usageMin), LocalEmission(0x2, f.usageMax),
               ShortItem(0x18, f.usageMin), ShortItem(0x28, f.usageMax));
    }
  }

  lemma RangesAre(f: FieldCaps)
    ensures EmitAll(RangeItems(f)) == RangesBytes(f)
  {
    var a, b := GlobalEmission(0x1, f.logicalMin), GlobalEmission(0x2, f.logicalMax);
    var c, d := GlobalEmission(0x7, f.reportSize), GlobalEmission(0x9, f.reportCount);
    OneItem(0x1, Global, f.logicalMin);
    OneItem(0x2, Global, f.logicalMax);
    OneItem(0x7, Global, f.reportSize);
    OneItem(0x9, Global, f.reportCount);
    TwoItems(a, b, ShortItem(0x14, f.logicalMin), ShortItem(0x24, f.logicalMax));
    TwoItems(c, d, ShortItem(0x74, f.reportSize), ShortItem(0x94, f.reportCount));
    assert RangeItems(f) == [a, b] + [c, d];
    EmitAllConcat([a, b], [c, d]);
  }

  /** The prefix of a kind's main item with one byte of flags. */
  function MainCode(kind: Kind): Byte {
    match kind
    case Input => 0x81
    case Output => 0x91
    case Feature => 0xB1
  }

  lemma EmitFour(a: seq<Emission>, b: seq<Emission>, c: seq<Emission>, d: seq<Emission>)
    ensures EmitAll(a + b + c + d) == EmitAll(a) + EmitAll(b) + EmitAll(c) + EmitAll(d)
  {
    EmitAllConcat(a, b);
    EmitAllConcat(a + b, c);
    EmitAllConcat(a + b + c, d);
  }

  lemma MainIs(f: FieldCaps, kind: Kind)
    ensures EmitAll([Emission(MainTag(kind), Main, MainFlags(f), true)])
         == [MainCode(kind),
             if f.isAbsolute then if f.hasNull then 0x42 else 0x02 else if f.hasNull then 0x46 else 0x06]
  {
    OneItem(MainTag(kind), Main, MainFlags(f));
  }

  lemma FieldIs(f: FieldCaps, kind: Kind)
    ensures EmitAll(FieldItems(f, kind)) == FieldBytes(f, MainCode(kind))
  {
    var page, main := [GlobalEmission(0x0, f.usagePage)], [Emission(MainTag(kind), Main, MainFlags(f), true)];
    OneItem(0x0, Global, f.usagePage);
    UsagesAre(f);
    RangesAre(f);
    MainIs(f, kind);
    EmitFour(page, UsageItems(f), RangeItems(f), main);
  }

  lemma {:induction false} FieldsAre(fs: seq<FieldCaps>, kind: Kind)
    ensures EmitAll(FieldsItems(fs, kind)) == FieldsBytes(fs, MainCode(kind))
  {
    if fs != [] {
      var n := |fs| - 1;
      FieldsAre(fs[..n], kind);
      FieldIs(fs[n], kind);
      EmitAllConcat(FieldsItems(fs[..n], kind), FieldItems(fs[n], kind));
    }
  }

  lemma IdIs(id: Byte)
    ensures EmitAll(if id != 0 then [GlobalEmission(0x8, id)] else []) == if id == 0 then [] else [0x85, id]
  {
    OneItem(0x8, Global, id);
  }

  lemma ReportIs(r: ReportInfo, kind: Kind)
    ensures EmitAll(ReportItems(r, kind)) == ReportBytes(r, MainCode(kind))
  {
    if r.fields != [] {
      IdIs(r.reportId);
      FieldsAre(r.fields, kind);
      EmitAllConcat(if r.reportId != 0 then [GlobalEmission(0x8, r.reportId)] else [], FieldsItems(r.fields, kind));
    }
  }

  lemma {:induction false} SectionsItemsConcat(a: seq<Section>, b: seq<Section>)
    ensures SectionsItems(a + b) == SectionsItems(a) + SectionsItems(b)
  {
    if b == [] {
      assert a + b == a;
    } else {
      var init, s := b[..|b| - 1], b[|b| - 1];
      SectionsItemsConcat(a, init);
      LastOfConcat(a, b);
      AppendAssociates(SectionsItems(a), SectionsItems(init), ReportItems(s.report, s.kind));
    }
  }

  lemma {:induction false} ReportsAre(rs: seq<ReportInfo>, kind: Kind)
    ensures EmitAll(SectionsItems(Tagged(kind, rs))) == ReportsBytes(rs, MainCode(kind))
  {
    if rs != [] {
      var n := |rs| - 1;
      ReportsAre(rs[..n], kind);
      ReportIs(rs[n], kind);
      assert rs[..n + 1] == rs;
      TaggedStep(kind, rs, n);
      SectionsItemsStep(Tagged(kind, rs[..n]), Section(kind, rs[n]));
      EmitAllConcat(SectionsItems(Tagged(kind, rs[..n])), ReportItems(rs[n], kind));
    }
  }

  lemma HeaderOf(page: U16, usage: U16)
    ensures EmitAll([GlobalEmission(0x0, page), LocalEmission(0x0, usage), Emission(0xA, Main, 1, true)])
         == ShortItem(0x04, page) + ShortItem(0x08, usage) + [0xA1, 0x01]
  {
    var a, b, c := GlobalEmission(0x0, page), LocalEmission(0x0, usage), Emission(0xA, Main, 1, true);
    OneItem(0x0, Global, page);
    OneItem(0x0, Local, usage);
    OneItem(0xA, Main, 1);
    TwoItems(a, b, ShortItem(0x04, page), ShortItem(0x08, usage));
    assert [a, b, c] == [a, b] + [c];
    EmitAllConcat([a, b], [c]);
  }

  lemma HeaderIs(p: DeviceProfile)
    ensures EmitAll(Header(p)) == ShortItem(0x04, if p.usagePage == 0 then 0xFF00 else p.usagePage)
                                  + ShortItem(0x08, if p.usage == 0 then 1 else p.usage) + [0xA1, 0x01]
  {
    HeaderOf(TopPage(p), TopUsage(p));
  }

  lemma ThreeSections(a: seq<Section>, b: seq<Section>, c: seq<Section>)
    ensures EmitAll(SectionsItems(a + b + c))
         == EmitAll(SectionsItems(a)) + EmitAll(SectionsItems(b)) + EmitAll(SectionsItems(c))
  {
    SectionsItemsConcat(a, b);
    SectionsItemsConcat(a + b, c);
    EmitAllConcat(SectionsItems(a), SectionsItems(b));
    EmitAllConcat(SectionsItems(a) + SectionsItems(b), SectionsItems(c));
  }

  lemma BodyIs(p: DeviceProfile)
    ensures EmitAll(SectionsItems(Sections(p)))
         == ReportsBytes(p.inputReports, 0x81) + ReportsBytes(p.outputReports, 0x91)
            + ReportsBytes(p.featureReports, 0xB1)
  {
    var a, b, c := Tagged(Input, p.inputReports), Tagged(Output, p.outputReports), Tagged(Feature, p.featureReports);
    ReportsAre(p.inputReports, Input);
    ReportsAre(p.outputReports, Output);
    ReportsAre(p.featureReports, Feature);
    ThreeSections(a, b, c);
  }

  /** The built descriptor, byte by byte and for every profile: page, usage and collection, the
      input, output and feature reports, and the end of the collection. */
  lemma {:induction false} DescriptorIs(p: DeviceProfile)
    ensures Descriptor(p)
         == ShortItem(0x04, if p.usagePage == 0 then 0xFF00 else p.usagePage)
            + ShortItem(0x08, if p.usage == 0 then 1 else p.usage) + [0xA1, 0x01]
            + (ReportsBytes(p.inputReports, 0x81) + ReportsBytes(p.outputReports, 0x91)
               + ReportsBytes(p.featureReports, 0xB1))
            + [0xC0]
  {
    HeaderIs(p);
    BodyIs(p);
    EmitAllConcat(Header(p), SectionsItems(Sections(p)));
    EmitAllConcat(Header(p) + SectionsItems(Sections(p)), [END_COLLECTION]);
    assert EmitAll([END_COLLECTION]) == [0xC0] + EmitAll([]);
  }

  // ---------- the toolkit's own descriptor ----------

  /** One item as it is written out by hand: the prefix byte and the data bytes. */
  datatype Line = Line(prefix: Byte, data: seq<Byte>) {
    predicate IsShort() { prefix != 0xFE && |data| == if prefix % 4 == 3 then 4 else prefix % 4 }
    function AsItem(): Item { Item.Short(prefix / 4 % 4, prefix / 16, data) }
  }

  predicate AllShort(lines: seq<Line>) {
    forall i :: 0 <= i < |lines| ==> lines[i].IsShort()
  }

  function Bytes(lines: seq<Line>): seq<Byte> {
    if lines == [] then [] else [lines[0].prefix] + lines[0].data + Bytes(lines[1..])
  }

  /** One report of src/core/src/report_descriptor.cpp; `main` is the prefix of its main item. */
  function OwnReport(id: Byte, usage: Byte, count: Byte, main: Byte): seq<Line> {
    [Line(0x85, [id]), Line(0x09, [usage]), Line(0x15, [0x00]), Line(0x26, [0xFF, 0x00]),
     Line(0x75, [0x08]), Line(0x95, [count]), Line(main, [0x02])]
  }

  const OWN_HEADER: seq<Line> := [Line(0x06, [0x00, 0xFF]), Line(0x09, [0x01]), Line(0xA1, [0x01])]
  const OWN_DESCRIPTOR: seq<Line> :=
    OWN_HEADER
    + OwnReport(0x01, 0x02, 0x10, 0x81) + OwnReport(0x02, 0x03, 0x10, 0x91) + OwnReport(0x03, 0x04, 0x08, 0xB1)
    + [Line(0xC0, [])]

  lemma ReadLine(line: Line, rest: seq<Byte>)
    requires line.IsShort()
    ensures ReadItem([line.prefix] + line.data + rest) == Some((line.AsItem(), rest))
  {
    var bytes := [line.prefix] + line.data + rest;
    assert bytes[1..1 + |line.data|] == line.data && bytes[1 + |line.data|..] == rest;
  }

  function RunLines(p: Parser, lines: seq<Line>): Parser
    decreases |lines|
  {
    if lines == [] then p else RunLines(Step(p, lines[0].AsItem()), lines[1..])
  }

  lemma {:induction false} RunLinesConcat(p: Parser, a: seq<Line>, b: seq<Line>)
    ensures RunLines(p, a + b) == RunLines(RunLines(p, a), b)
    decreases |a|
  {
    if a == [] {
      assert a + b == b;
    } else {
      assert (a + b)[1..] == a[1..] + b;
      RunLinesConcat(Step(p, a[0].AsItem()), a[1..], b);
    }
  }

  /** Reading hand-written items and running the parser over them is running it line by line. */
  lemma {:induction false} LinesRun(p: Parser, lines: seq<Line>)
    requires AllShort(lines)
    ensures var items := ReadItems(Bytes(lines)); items.Some? && Run(p, items.value) == RunLines(p, lines)
    decreases |lines|
  {
    if lines != [] {
      ReadLine(lines[0], Bytes(lines[1..]));
      LinesRun(Step(p, lines[0].AsItem()), lines[1..]);
      assert ReadItems(Bytes(lines)).value[1..] == ReadItems(Bytes(lines[1..])).value;
    }
  }

  lemma OneByte(b: Byte)
    ensures UnsignedOf([b]) == b && SignedOf([b]) == if b < 128 then b else b - 256
  {
    ModulusValues();
    assert [b][1..] == [];
  }

  lemma TwoBytes(a: Byte, b: Byte)
    ensures UnsignedOf([a, b]) == a + 256 * b
  {
    OneByte(b);
    assert [a, b][1..] == [b];
  }

  /** Three steps, given what each of them does. */
  lemma RunThree(p: Parser, a: Line, b: Line, c: Line, q: Parser, r: Parser, s: Parser)
    requires Step(p, a.AsItem()) == q && Step(q, b.AsItem()) == r && Step(r, c.AsItem()) == s
    ensures RunLines(p, [a, b, c]) == s
  {
    assert [a, b, c][1..] == [b, c] && [b, c][1..] == [c] && [c][1..] == [];
    assert RunLines(s, []) == s;
    assert RunLines(r, [c]) == RunLines(s, []);
    assert RunLines(q, [b, c]) == RunLines(r, [c]);
  }

  lemma PageAndUsageSteps(p: Parser, usage: Byte)
    ensures Step(p, Line(0x06, [0x00, 0xFF]).AsItem()) == p.(globals := p.globals.(usagePage := 0xFF00))
    ensures Step(p, Line(0x09, [usage]).AsItem())
         == p.(locals := p.locals.(usages := p.locals.usages + [UsageRange(usage, usage)]))
  {
    TwoBytes(0x00, 0xFF);
    OneByte(usage);
  }

  lemma CollectionSteps(p: Parser)
    ensures Step(p, Line(0xA1, [0x01]).AsItem())
         == p.(path := p.path + [Collection(1, p.globals.usagePage, p.locals.usages)], locals := NO_LOCALS)
    ensures p.path != [] ==>
              Step(p, Line(0xC0, []).AsItem()) == p.(path := p.path[..|p.path| - 1], locals := NO_LOCALS)
  {
    OneByte(0x01);
  }

  lemma ExtentSteps(p: Parser)
    ensures Step(p, Line(0x15, [0x00]).AsItem()) == p.(globals := p.globals.(logicalMin := [0x00]))
    ensures Step(p, Line(0x26, [0xFF, 0x00]).AsItem()) == p.(globals := p.globals.(logicalMax := [0xFF, 0x00]))
  {}

  lemma IdAndSizeSteps(p: Parser, b: Byte)
    ensures b != 0 ==> Step(p, Line(0x85, [b]).AsItem()) == p.(globals := p.globals.(reportId := b))
    ensures Step(p, Line(0x75, [b]).AsItem()) == p.(globals := p.globals.(reportSize := b))
    ensures Step(p, Line(0x95, [b]).AsItem()) == p.(globals := p.globals.(reportCount := b))
  {
    OneByte(b);
  }

  lemma MainSteps(p: Parser)
    ensures Step(p, Line(0x81, [0x02]).AsItem()) == AddField(p, Input, 2)
    ensures Step(p, Line(0x91, [0x02]).AsItem()) == AddField(p, Output, 2)
    ensures Step(p, Line(0xB1, [0x02]).AsItem()) == AddField(p, Feature, 2)
  {
    OneByte(0x02);
  }

  lemma OneUsage(p: Parser, usage: nat)
    requires p.locals == NO_LOCALS
    ensures p.locals.(usages := p.locals.usages + [UsageRange(usage, usage)])
         == Locals([UsageRange(usage, usage)], None)
  {
    assert NO_LOCALS.usages + [UsageRange(usage, usage)] == [UsageRange(usage, usage)];
  }

  /** The header leaves one collection open. */
  const IN_HEADER: Parser :=
    Parser(Globals(0xFF00, [], [], 0, 0, 0), [], NO_LOCALS, [Collection(1, 0xFF00, [UsageRange(1, 1)])], [], true)

  lemma OwnHeaderRuns()
    ensures RunLines(START, OWN_HEADER) == IN_HEADER
  {
    var q := START.(globals := START.globals.(usagePage := 0xFF00));
    var r := q.(locals := Locals([UsageRange(1, 1)], None));
    PageAndUsageSteps(START, 1);
    PageAndUsageSteps(q, 1);
    OneUsage(q, 1);
    CollectionSteps(r);
    assert r.path + IN_HEADER.path == IN_HEADER.path;
    RunThree(START, Line(0x06, [0x00, 0xFF]), Line(0x09, [0x01]), Line(0xA1, [0x01]), q, r, IN_HEADER);
  }

  function AfterUsage(p: Parser, id: Byte, usage: Byte): Parser {
    p.(globals := p.globals.(reportId := id, logicalMin := [0x00]), locals := Locals([UsageRange(usage, usage)], None))
  }

  lemma OwnUsageRuns(p: Parser, id: Byte, usage: Byte)
    requires p.locals == NO_LOCALS && id != 0
    ensures RunLines(p, [Line(0x85, [id]), Line(0x09, [usage]), Line(0x15, [0x00])]) == AfterUsage(p, id, usage)
  {
    var q := p.(globals := p.globals.(reportId := id));
    var r := q.(locals := Locals([UsageRange(usage, usage)], None));
    IdAndSizeSteps(p, id);
    PageAndUsageSteps(q, usage);
    OneUsage(q, usage);
    ExtentSteps(r);
    RunThree(p, Line(0x85, [id]), Line(0x09, [usage]), Line(0x15, [0x00]), q, r, AfterUsage(p, id, usage));
  }

  function AfterSizes(p: Parser, count: Byte): Parser {
    p.(globals := p.globals.(logicalMax := [0xFF, 0x00], reportSize := 8, reportCount := count))
  }

  lemma OwnSizesRun(p: Parser, count: Byte)
    ensures RunLines(p, [Line(0x26, [0xFF, 0x00]), Line(0x75, [0x08]), Line(0x95, [count])]) == AfterSizes(p, count)
  {
    var q := p.(globals := p.globals.(logicalMax := [0xFF, 0x00]));
    var r := q.(globals := q.globals.(reportSize := 8));
    ExtentSteps(p);
    IdAndSizeSteps(q, 0x08);
    IdAndSizeSteps(r, count);
    RunThree(p, Line(0x26, [0xFF, 0x00]), Line(0x75, [0x08]), Line(0x95, [count]), q, r, AfterSizes(p, count));
  }

  /** A report of the hand-written descriptor: bytes, all of them data. */
  function OwnField(kind: Kind, path: seq<Collection>, page: nat, id: Byte, usage: Byte, count: Byte): Field {
    Field(kind, path, id, page, [UsageRange(usage, usage)], 0, 255, 8, count, false, true, false, false)
  }

  lemma OwnMainRuns(p: Parser, kind: Kind, id: Byte, usage: Byte, count: Byte)
    ensures var q := AfterSizes(AfterUsage(p, id, usage), count);
            RunLines(q, [Line(MainCode(kind), [0x02])])
            == q.(fields := p.fields + [OwnField(kind, p.path, p.globals.usagePage, id, usage, count)],
                  locals := NO_LOCALS)
  {
    var q := AfterSizes(AfterUsage(p, id, usage), count);
    MainSteps(q);
    OneByte(0x00);
    TwoBytes(0xFF, 0x00);
    assert FieldAt(q, kind, 2) == OwnField(kind, p.path, p.globals.usagePage, id, usage, count);
    assert [Line(MainCode(kind), [0x02])][1..] == [];
  }

  /** `q` follows `p` after one report of the hand-written descriptor. */
  predicate OwnReportRead(p: Parser, q: Parser, kind: Kind, id: Byte, usage: Byte, count: Byte) {
    && q.ok == p.ok && q.locals == NO_LOCALS && q.path == p.path && q.globals.usagePage == p.globals.usagePage
    && q.fields == p.fields + [OwnField(kind, p.path, p.globals.usagePage, id, usage, count)]
  }

  lemma OwnReportRuns(p: Parser, kind: Kind, id: Byte, usage: Byte, count: Byte)
    requires p.locals == NO_LOCALS && id != 0
    ensures OwnReportRead(p, RunLines(p, OwnReport(id, usage, count, MainCode(kind))), kind, id, usage, count)
  {
    var a := [Line(0x85, [id]), Line(0x09, [usage]), Line(0x15, [0x00])];
    var b := [Line(0x26, [0xFF, 0x00]), Line(0x75, [0x08]), Line(0x95, [count])];
    var c := [Line(MainCode(kind), [0x02])];
    assert OwnReport(id, usage, count, MainCode(kind)) == a + (b + c);
    RunLinesConcat(p, a, b + c);
    RunLinesConcat(AfterUsage(p, id, usage), b, c);
    OwnUsageRuns(p, id, usage);
    OwnSizesRun(AfterUsage(p, id, usage), count);
    OwnMainRuns(p, kind, id, usage, count);
  }

  lemma OwnEndRuns(p: Parser)
    requires |p.path| == 1
    ensures RunLines(p, [Line(0xC0, [])]) == p.(path := [], locals := NO_LOCALS)
  {
    CollectionSteps(p);
    assert p.path[..0] == [];
    assert [Line(0xC0, [])][1..] == [];
  }

  lemma RunFive(p: Parser, a: seq<Line>, b: seq<Line>, c: seq<Line>, d: seq<Line>, e: seq<Line>)
    ensures RunLines(p, a + b + c + d + e)
         == RunLines(RunLines(RunLines(RunLines(RunLines(p, a), b), c), d), e)
  {
    RunLinesConcat(p, a + b + c + d, e);
    RunLinesConcat(p, a + b + c, d);
    RunLinesConcat(p, a + b, c);
    RunLinesConcat(p, a, b);
  }

  const OWN_FIELDS: seq<Field> :=
    [OwnField(Input, IN_HEADER.path, 0xFF00, 1, 2, 16), OwnField(Output, IN_HEADER.path, 0xFF00, 2, 3, 16),
     OwnField(Feature, IN_HEADER.path, 0xFF00, 3, 4, 8)]

  lemma ThreeReportsRead(p: Parser, q: Parser, r: Parser)
    requires OwnReportRead(IN_HEADER, p, Input, 1, 2, 16)
    requires OwnReportRead(p, q, Output, 2, 3, 16) && OwnReportRead(q, r, Feature, 3, 4, 8)
    ensures r.ok && r.path == IN_HEADER.path && r.fields == OWN_FIELDS
  {
    assert p.fields == OWN_FIELDS[..1];
    assert q.fields == OWN_FIELDS[..2];
  }

  lemma OwnReportsRun(a: seq<Line>, b: seq<Line>, c: seq<Line>)
    requires a == OwnReport(1, 2, 16, MainCode(Input)) && b == OwnReport(2, 3, 16, MainCode(Output))
    requires c == OwnReport(3, 4, 8, MainCode(Feature))
    ensures var r := RunLines(RunLines(RunLines(IN_HEADER, a), b), c);
            r.ok && r.path == IN_HEADER.path && r.fields == OWN_FIELDS
  {
    var p := RunLines(IN_HEADER, a);
    var q := RunLines(p, b);
    OwnReportRuns(IN_HEADER, Input, 1, 2, 16);
    OwnReportRuns(p, Output, 2, 3, 16);
    OwnReportRuns(q, Feature, 3, 4, 8);
    ThreeReportsRead(p, q, RunLines(q, c));
  }

  lemma OwnLinesRun(header: seq<Line>, a: seq<Line>, b: seq<Line>, c: seq<Line>, end: seq<Line>)
    requires header == OWN_HEADER && end == [Line(0xC0, [])]
    requires a == OwnReport(1, 2, 16, MainCode(Input)) && b == OwnReport(2, 3, 16, MainCode(Output))
    requires c == OwnReport(3, 4, 8, MainCode(Feature))
    ensures var q := RunLines(START, header + a + b + c + end); q.ok && q.path == [] && q.fields == OWN_FIELDS
  {
    RunFive(START, header, a, b, c, end);
    OwnHeaderRuns();
    OwnReportsRun(a, b, c);
    OwnEndRuns(RunLines(RunLines(RunLines(IN_HEADER, a), b), c));
  }

  lemma OwnReportIsShort(kind: Kind, id: Byte, usage: Byte, count: Byte)
    ensures AllShort(OwnReport(id, usage, count, MainCode(kind)))
  {}

  lemma ShortConcat(a: seq<Line>, b: seq<Line>)
    requires AllShort(a) && AllShort(b)
    ensures AllShort(a + b)
  {}

  lemma OwnLinesAreShort()
    ensures AllShort(OWN_DESCRIPTOR)
  {
    var a, b := OwnReport(0x01, 0x02, 0x10, 0x81), OwnReport(0x02, 0x03, 0x10, 0x91);
    var c := OwnReport(0x03, 0x04, 0x08, 0xB1);
    OwnReportIsShort(Input, 0x01, 0x02, 0x10);
    OwnReportIsShort(Output, 0x02, 0x03, 0x10);
    OwnReportIsShort(Feature, 0x03, 0x04, 0x08);
    ShortConcat(OWN_HEADER, a);
    ShortConcat(OWN_HEADER + a, b);
    ShortConcat(OWN_HEADER + a + b, c);
    ShortConcat(OWN_HEADER + a + b + c, [Line(0xC0, [])]);
  }

  /** The toolkit's own descriptor, read by the same parser: three reports of the ids and sizes
      that the wire buffers of reports.hpp have. */
  lemma {:induction false} OwnDescriptorParses()
    ensures var top := [Collection(1, 0xFF00, [UsageRange(1, 1)])];
            Parse(Bytes(OWN_DESCRIPTOR))
            == Some([OwnField(Input, top, 0xFF00, INPUT_ID, 2, INPUT_PAYLOAD),
                     OwnField(Output, top, 0xFF00, OUTPUT_ID, 3, OUTPUT_PAYLOAD),
                     OwnField(Feature, top, 0xFF00, FEATURE_ID, 4, FEATURE_PAYLOAD)])
  {
    OwnLinesAreShort();
    OwnLinesRun(OWN_HEADER, OwnReport(0x01, 0x02, 0x10, 0x81), OwnReport(0x02, 0x03, 0x10, 0x91),
                OwnReport(0x03, 0x04, 0x08, 0xB1), [Line(0xC0, [])]);
    LinesRun(START, OWN_DESCRIPTOR);
  }
}
