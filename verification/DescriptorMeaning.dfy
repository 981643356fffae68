/** The meaning of a built descriptor: parsing it gives back the profile's
    reports, with the exact condition under which nothing is distorted. */
module DescriptorMeaning {
  import opened Core
  import opened Profiles
  import opened HidItems
  import opened HidParser
  import opened DescriptorBuilder

  // ---------- emitted items in the parser ----------

  /** Running the parser over emitted items, without going through bytes. */
  function RunEmitted(p: Parser, es: seq<Emission>): Parser
    decreases |es|
  {
    if es == [] then p else RunEmitted(Step(p, ItemOf(es[0])), es[1..])
  }

  lemma {:induction false} RunEmittedIsRun(p: Parser, es: seq<Emission>)
    ensures RunEmitted(p, es) == Run(p, ItemsOf(es))
    decreases |es|
  {
    if es != [] {
      RunEmittedIsRun(Step(p, ItemOf(es[0])), es[1..]);
      assert ItemsOf(es)[1..] == ItemsOf(es[1..]);
    }
  }

  lemma {:induction false} RunEmittedConcat(p: Parser, a: seq<Emission>, b: seq<Emission>)
    ensures RunEmitted(p, a + b) == RunEmitted(RunEmitted(p, a), b)
    decreases |a|
  {
    if a == [] {
      assert a + b == b;
    } else {
      assert (a + b)[0] == a[0] && (a + b)[1..] == a[1..] + b;
      RunEmittedConcat(Step(p, ItemOf(a[0])), a[1..], b);
    }
  }

  /** Parsing emitted bytes is running the emitted items. */
  lemma ParseEmitted(es: seq<Emission>)
    ensures var p := RunEmitted(START, es);
            Parse(EmitAll(es)) == if p.ok && p.path == [] then Some(p.fields) else None
  {
    UniqueDecodability(es, []);
    assert EmitAll(es) + [] == EmitAll(es);
    assert ItemsOf(es) + [] == ItemsOf(es);
    RunEmittedIsRun(START, es);
  }

  // ---------- one field ----------

  /** A parsed field with the encoded capabilities of `f`. Whether the field is
      a button, its physical range and its unit are not encoded. */
  function FieldOf(f: FieldCaps, kind: Kind, id: nat, path: seq<Collection>, lower: int, upper: int): Field {
    Field(kind, path, id, f.usagePage, [UsageRange(f.usageMin, f.usageMax)], lower, upper,
          f.reportSize, f.reportCount, false, true, !f.isAbsolute, f.hasNull)
  }

  /** What the profile says. */
  function Declared(f: FieldCaps, kind: Kind, id: nat, path: seq<Collection>): Field {
    FieldOf(f, kind, id, path, f.logicalMin, f.logicalMax)
  }

  function ReadBackMin(f: FieldCaps): int { SignedOf(Payload(f.logicalMin, true)) }

  function ReadBackMax(f: FieldCaps): int { UpperExtent(ReadBackMin(f), Payload(f.logicalMax, true)) }

  /** What a parser sees. */
  function ReadBack(f: FieldCaps, kind: Kind, id: nat, path: seq<Collection>): Field {
    FieldOf(f, kind, id, path, ReadBackMin(f), ReadBackMax(f))
  }

  predicate RangeEncodable(f: FieldCaps) {
    && !AmbiguousSign(f.logicalMin)
    && if f.logicalMin >= 0 then f.logicalMax >= 0 else !AmbiguousSign(f.logicalMax)
  }

  lemma RangeExact(f: FieldCaps)
    ensures ReadBackMin(f) == f.logicalMin && ReadBackMax(f) == f.logicalMax <==> RangeEncodable(f)
  {
    SignedRoundTrip(f.logicalMin, true);
    SignedRoundTrip(f.logicalMax, true);
    UnsignedRoundTrip(f.logicalMax, true);
  }

  function AfterField(p: Parser, f: FieldCaps, kind: Kind): Parser {
    p.(globals := Globals(f.usagePage, Payload(f.logicalMin, true), Payload(f.logicalMax, true),
                          f.reportSize, p.globals.reportId, f.reportCount),
       locals := NO_LOCALS,
       fields := p.fields + [ReadBack(f, kind, p.globals.reportId, p.path)])
  }

  lemma RunOne(p: Parser, e: Emission)
    ensures RunEmitted(p, [e]) == Step(p, ItemOf(e))
  {
    assert [e][1..] == [];
  }

  lemma RunSnoc(p: Parser, es: seq<Emission>, e: Emission)
    ensures RunEmitted(p, es + [e]) == Step(RunEmitted(p, es), ItemOf(e))
  {
    RunEmittedConcat(p, es, [e]);
    RunOne(RunEmitted(p, es), e);
  }

  lemma RunUsages(p: Parser, f: FieldCaps)
    requires p.locals == NO_LOCALS
    ensures RunEmitted(p, UsageItems(f)) == p.(locals := Locals([UsageRange(f.usageMin, f.usageMax)], None))
  {
    UnsignedRoundTrip(f.usageMin, true);
    UnsignedRoundTrip(f.usageMax, true);
    if f.usageMin == f.usageMax {
      RunOne(p, LocalEmission(0x0, f.usageMin));
    } else {
      RunOne(p, LocalEmission(0x1, f.usageMin));
      RunSnoc(p, [LocalEmission(0x1, f.usageMin)], LocalEmission(0x2, f.usageMax));
      assert [LocalEmission(0x1, f.usageMin)] + [LocalEmission(0x2, f.usageMax)] == UsageItems(f);
    }
  }

  lemma RunRanges(p: Parser, f: FieldCaps)
    ensures RunEmitted(p, [GlobalEmission(0x1, f.logicalMin), GlobalEmission(0x2, f.logicalMax),
                           GlobalEmission(0x7, f.reportSize), GlobalEmission(0x9, f.reportCount)])
         == p.(globals := Globals(p.globals.usagePage, Payload(f.logicalMin, true), Payload(f.logicalMax, true),
                                  f.reportSize, p.globals.reportId, f.reportCount))
  {
    UnsignedRoundTrip(f.reportSize, true);
    UnsignedRoundTrip(f.reportCount, true);
    var a, b := GlobalEmission(0x1, f.logicalMin), GlobalEmission(0x2, f.logicalMax);
    var c, d := GlobalEmission(0x7, f.reportSize), GlobalEmission(0x9, f.reportCount);
    RunOne(p, a);
    RunSnoc(p, [a], b);
    RunSnoc(p, [a, b], c);
    RunSnoc(p, [a, b, c], d);
    assert [a] + [b] == [a, b] && [a, b] + [c] == [a, b, c] && [a, b, c] + [d] == [a, b, c, d];
  }

  lemma RunMain(p: Parser, f: FieldCaps, kind: Kind)
    ensures RunEmitted(p, [Emission(MainTag(kind), Main, MainFlags(f), true)])
         == p.(locals := NO_LOCALS, fields := p.fields + [FieldAt(p, kind, MainFlags(f))])
    ensures var flags := MainFlags(f);
            !Bit(flags, 0x01) && Bit(flags, 0x02) && Bit(flags, 0x04) == !f.isAbsolute && Bit(flags, 0x40) == f.hasNull
  {
    UnsignedRoundTrip(MainFlags(f), true);
    RunOne(p, Emission(MainTag(kind), Main, MainFlags(f), true));
  }

  /** From any parser state between main items, the items of a field add exactly
      one field, and nothing of the earlier state but the report id and the open
      collections can be seen in it. */
  lemma {:induction false} FieldParses(p: Parser, f: FieldCaps, kind: Kind)
    requires p.locals == NO_LOCALS
    ensures RunEmitted(p, FieldItems(f, kind)) == AfterField(p, f, kind)
  {
    var page := GlobalEmission(0x0, f.usagePage);
    var ranges := [GlobalEmission(0x1, f.logicalMin), GlobalEmission(0x2, f.logicalMax),
                   GlobalEmission(0x7, f.reportSize), GlobalEmission(0x9, f.reportCount)];
    var main := [Emission(MainTag(kind), Main, MainFlags(f), true)];
    assert FieldItems(f, kind) == [page] + UsageItems(f) + ranges + main;
    RunFour(p, [page], UsageItems(f), ranges, main);
    UnsignedRoundTrip(f.usagePage, true);
    RunOne(p, page);
    var p1 := Step(p, ItemOf(page));
    RunUsages(p1, f);
    var p2 := p1.(locals := Locals([UsageRange(f.usageMin, f.usageMax)], None));
    RunRanges(p2, f);
    RunMain(RunEmitted(p2, ranges), f, kind);
  }

  lemma {:induction false} RunFour(p: Parser, a: seq<Emission>, b: seq<Emission>, c: seq<Emission>, d: seq<Emission>)
    ensures RunEmitted(p, a + b + c + d) == RunEmitted(RunEmitted(RunEmitted(RunEmitted(p, a), b), c), d)
  {
    RunEmittedConcat(p, a, b);
    RunEmittedConcat(p, a + b, c);
    RunEmittedConcat(p, a + b + c, d);
  }

  /** No state leaks from one field into the next: the fields that two parsers
      read differ in nothing but the report id and the open collections they
      were in, whatever other globals they carry. */
  lemma NoStateLeak(p: Parser, q: Parser, f: FieldCaps, kind: Kind)
    requires p.locals == NO_LOCALS && q.locals == NO_LOCALS
    ensures exists x: Field ::
              && RunEmitted(p, FieldItems(f, kind)).fields == p.fields + [x]
              && RunEmitted(q, FieldItems(f, kind)).fields
                 == q.fields + [x.(reportId := q.globals.reportId, path := q.path)]
  {
    FieldParses(p, f, kind);
    FieldParses(q, f, kind);
    var x := ReadBack(f, kind, p.globals.reportId, p.path);
    assert RunEmitted(p, FieldItems(f, kind)).fields == p.fields + [x];
  }

  // ---------- all reports ----------

  function FieldsRead(fs: seq<FieldCaps>, kind: Kind, id: nat, path: seq<Collection>): (r: seq<Field>)
    ensures |r| == |fs|
    ensures forall i :: 0 <= i < |fs| ==> r[i] == ReadBack(fs[i], kind, id, path)
  {
    if fs == [] then []
    else FieldsRead(fs[..|fs| - 1], kind, id, path) + [ReadBack(fs[|fs| - 1], kind, id, path)]
  }

  function FieldsDeclared(fs: seq<FieldCaps>, kind: Kind, id: nat, path: seq<Collection>): (r: seq<Field>)
    ensures |r| == |fs|
    ensures forall i :: 0 <= i < |fs| ==> r[i] == Declared(fs[i], kind, id, path)
  {
    if fs == [] then []
    else FieldsDeclared(fs[..|fs| - 1], kind, id, path) + [Declared(fs[|fs| - 1], kind, id, path)]
  }

  /** The report id in force after these sections: ids of empty reports and id 0
      are not emitted. */
  function CarriedId(ss: seq<Section>): nat {
    if ss == [] then 0
    else
      var r := ss[|ss| - 1].report;
      if r.fields == [] || r.reportId == 0 then CarriedId(ss[..|ss| - 1]) else r.reportId
  }

  function AllRead(ss: seq<Section>, path: seq<Collection>): seq<Field> {
    if ss == [] then []
    else
      var s := ss[|ss| - 1];
      AllRead(ss[..|ss| - 1], path) + FieldsRead(s.report.fields, s.kind, CarriedId(ss), path)
  }

  function AllDeclared(ss: seq<Section>, path: seq<Collection>): seq<Field> {
    if ss == [] then []
    else
      var s := ss[|ss| - 1];
      AllDeclared(ss[..|ss| - 1], path) + FieldsDeclared(s.report.fields, s.kind, s.report.reportId, path)
  }

  /** `q` continues `p` between two main items, with the given fields added. */
  predicate Continues(p: Parser, q: Parser, added: seq<Field>) {
    q.ok == p.ok && q.path == p.path && q.locals == NO_LOCALS && q.fields == p.fields + added
  }

  lemma {:induction false} FieldsParse(p: Parser, fs: seq<FieldCaps>, kind: Kind)
    requires p.locals == NO_LOCALS
    ensures var q := RunEmitted(p, FieldsItems(fs, kind));
            Continues(p, q, FieldsRead(fs, kind, p.globals.reportId, p.path))
            && q.globals.reportId == p.globals.reportId
  {
    if fs != [] {
      var init, last := fs[..|fs| - 1], fs[|fs| - 1];
      FieldsParse(p, init, kind);
      var q := RunEmitted(p, FieldsItems(init, kind));
      FieldParses(q, last, kind);
      RunEmittedConcat(p, FieldsItems(init, kind), FieldItems(last, kind));
    }
  }

  lemma ReportParses(p: Parser, r: ReportInfo, kind: Kind)
    requires p.locals == NO_LOCALS
    ensures var q := RunEmitted(p, ReportItems(r, kind));
            var id := if r.fields == [] || r.reportId == 0 then p.globals.reportId else r.reportId;
            Continues(p, q, FieldsRead(r.fields, kind, id, p.path)) && q.globals.reportId == id
  {
    if r.fields != [] {
      if r.reportId != 0 {
        var e := GlobalEmission(0x8, r.reportId);
        UnsignedRoundTrip(r.reportId, true);
        RunOne(p, e);
        FieldsParse(RunEmitted(p, [e]), r.fields, kind);
        RunEmittedConcat(p, [e], FieldsItems(r.fields, kind));
      } else {
        FieldsParse(p, r.fields, kind);
        assert [] + FieldsItems(r.fields, kind) == FieldsItems(r.fields, kind);
      }
    }
  }

  lemma {:induction false} SectionsParse(p: Parser, ss: seq<Section>)
    requires p.locals == NO_LOCALS && p.globals.reportId == 0
    ensures var q := RunEmitted(p, SectionsItems(ss));
            Continues(p, q, AllRead(ss, p.path)) && q.globals.reportId == CarriedId(ss)
  {
    if ss != [] {
      var init, s := ss[..|ss| - 1], ss[|ss| - 1];
      SectionsParse(p, init);
      var q := RunEmitted(p, SectionsItems(init));
      ReportParses(q, s.report, s.kind);
      RunEmittedConcat(p, SectionsItems(init), ReportItems(s.report, s.kind));
      var added := FieldsRead(s.report.fields, s.kind, CarriedId(ss), p.path);
      AppendAssociates(p.fields, AllRead(init, p.path), added);
    }
  }

  /** The one application collection everything sits in. */
  function TopPath(p: DeviceProfile): seq<Collection> {
    [Collection(1, TopPage(p), [UsageRange(TopUsage(p), TopUsage(p))])]
  }

  lemma HeaderParses(p: DeviceProfile)
    ensures RunEmitted(START, Header(p))
         == START.(globals := START.globals.(usagePage := TopPage(p)), path := TopPath(p))
  {
    var a, b, c := GlobalEmission(0x0, TopPage(p)), LocalEmission(0x0, TopUsage(p)), Emission(0xA, Main, 1, true);
    UnsignedRoundTrip(TopPage(p), true);
    UnsignedRoundTrip(TopUsage(p), true);
    UnsignedRoundTrip(1, true);
    RunOne(START, a);
    RunSnoc(START, [a], b);
    RunSnoc(START, [a, b], c);
    assert [a] + [b] == [a, b] && [a, b] + [c] == Header(p);
    assert NO_LOCALS.usages + [UsageRange(TopUsage(p), TopUsage(p))] == TopPath(p)[0].usages;
    assert START.path + TopPath(p) == TopPath(p);
  }

  lemma {:induction false} BodyRun(p: DeviceProfile)
    ensures var q := RunEmitted(START, Header(p) + SectionsItems(Sections(p)));
            q.ok && q.path == TopPath(p) && q.fields == AllRead(Sections(p), TopPath(p))
  {
    var body := SectionsItems(Sections(p));
    HeaderParses(p);
    var q := START.(globals := START.globals.(usagePage := TopPage(p)), path := TopPath(p));
    SectionsParse(q, Sections(p));
    RunEmittedConcat(START, Header(p), body);
    assert q.fields + AllRead(Sections(p), TopPath(p)) == AllRead(Sections(p), TopPath(p));
  }

  lemma EndCloses(p: Parser)
    requires |p.path| == 1
    ensures Step(p, ItemOf(END_COLLECTION)) == p.(path := [], locals := NO_LOCALS)
  {
    assert p.path[..0] == [];
  }

  lemma WholeRun(p: DeviceProfile)
    ensures var q := RunEmitted(START, DescriptorItems(p));
            q.ok && q.path == [] && q.fields == AllRead(Sections(p), TopPath(p))
  {
    BodyRun(p);
    EndCloses(RunEmitted(START, Header(p) + SectionsItems(Sections(p))));
    RunSnoc(START, Header(p) + SectionsItems(Sections(p)), END_COLLECTION);
  }

  /** Whatever the profile, its descriptor is well-formed, and a parser reads
      exactly its non-empty reports' fields, in order, in one application
      collection; only extents and report ids may be distorted. */
  lemma {:induction false} DescriptorParses(p: DeviceProfile)
    ensures Parse(Descriptor(p)) == Some(AllRead(Sections(p), TopPath(p)))
  {
    WholeRun(p);
    ParseEmitted(DescriptorItems(p));
  }

  // ---------- when nothing is distorted ----------

  predicate IdZeroLater(ss: seq<Section>, i: nat, j: nat)
    requires i < j < |ss|
  {
    ss[i].report.fields != [] && ss[i].report.reportId != 0 && ss[j].report.fields != [] && ss[j].report.reportId == 0
  }

  predicate NoIdZeroLater(ss: seq<Section>) {
    forall i, j :: 0 <= i < j < |ss| ==> !IdZeroLater(ss, i, j)
  }

  /** Every extent can be encoded, and no non-empty report without an id comes
      after a non-empty report with one. */
  predicate Faithful(ss: seq<Section>) {
    && (forall i, k :: 0 <= i < |ss| && 0 <= k < |ss[i].report.fields| ==> RangeEncodable(ss[i].report.fields[k]))
    && NoIdZeroLater(ss)
  }

  /** What appending one section adds to faithfulness. */
  predicate FaithfulAfter(init: seq<Section>, s: Section) {
    && (forall k :: 0 <= k < |s.report.fields| ==> RangeEncodable(s.report.fields[k]))
    && (s.report.fields == [] || s.report.reportId != 0 || CarriedId(init) == 0)
  }

  lemma FieldsExact(fs: seq<FieldCaps>, kind: Kind, carried: nat, id: nat, path: seq<Collection>)
    ensures FieldsRead(fs, kind, carried, path) == FieldsDeclared(fs, kind, id, path)
       <==> (fs == [] || carried == id) && forall k :: 0 <= k < |fs| ==> RangeEncodable(fs[k])
  {
    var read, declared := FieldsRead(fs, kind, carried, path), FieldsDeclared(fs, kind, id, path);
    forall k | 0 <= k < |fs|
      ensures read[k] == declared[k] <==> carried == id && RangeEncodable(fs[k])
    {
      RangeExact(fs[k]);
    }
    if fs != [] && read == declared {
      assert read[0] == declared[0];
    }
  }

  lemma {:induction false} CarriedIdZero(ss: seq<Section>)
    ensures CarriedId(ss) == 0
       <==> forall i :: 0 <= i < |ss| ==> ss[i].report.fields == [] || ss[i].report.reportId == 0
  {
    if ss != [] {
      CarriedIdZero(ss[..|ss| - 1]);
    }
  }

  lemma NoIdZeroLaterStep(init: seq<Section>, s: Section)
    ensures NoIdZeroLater(init + [s])
       <==> NoIdZeroLater(init) && (s.report.fields == [] || s.report.reportId != 0 || CarriedId(init) == 0)
  {
    var ss, n := init + [s], |init|;
    CarriedIdZero(init);
    assert ss[n] == s;
    if NoIdZeroLater(ss) {
      forall i, j | 0 <= i < j < n ensures !IdZeroLater(init, i, j) {
        assert !IdZeroLater(ss, i, j);
      }
      forall i | 0 <= i < n && s.report.fields != [] && s.report.reportId == 0
        ensures init[i].report.fields == [] || init[i].report.reportId == 0
      {
        assert init[i] == ss[i] && !IdZeroLater(ss, i, n);
      }
    } else {
      var i, j :| 0 <= i < j < |ss| && IdZeroLater(ss, i, j);
      assert init[i] == ss[i];
      assert j < n ==> IdZeroLater(init, i, j);
    }
  }

  lemma FaithfulStep(init: seq<Section>, s: Section)
    ensures Faithful(init + [s]) <==> Faithful(init) && FaithfulAfter(init, s)
  {
    var ss, n := init + [s], |init|;
    NoIdZeroLaterStep(init, s);
    assert ss[n] == s && forall i :: 0 <= i < n ==> ss[i] == init[i];
    if Faithful(ss) {
      assert forall k :: 0 <= k < |s.report.fields| ==> RangeEncodable(ss[n].report.fields[k]);
      forall i, k | 0 <= i < n && 0 <= k < |init[i].report.fields| ensures RangeEncodable(init[i].report.fields[k]) {
        assert init[i] == ss[i];
      }
    }
  }

  lemma {:induction false} ReadLength(ss: seq<Section>, path: seq<Collection>)
    ensures |AllRead(ss, path)| == |AllDeclared(ss, path)|
  {
    if ss != [] {
      ReadLength(ss[..|ss| - 1], path);
    }
  }

  lemma ReadStep(init: seq<Section>, s: Section, path: seq<Collection>)
    ensures AllRead(init + [s], path) == AllDeclared(init + [s], path)
       <==> AllRead(init, path) == AllDeclared(init, path) && FaithfulAfter(init, s)
  {
    var ss := init + [s];
    assert ss[..|ss| - 1] == init && ss[|ss| - 1] == s;
    ReadLength(init, path);
    FieldsExact(s.report.fields, s.kind, CarriedId(ss), s.report.reportId, path);
    ConcatEqual(AllRead(init, path), FieldsRead(s.report.fields, s.kind, CarriedId(ss), path),
                AllDeclared(init, path), FieldsDeclared(s.report.fields, s.kind, s.report.reportId, path));
  }

  lemma {:induction false} ReadIsDeclared(ss: seq<Section>, path: seq<Collection>)
    ensures AllRead(ss, path) == AllDeclared(ss, path) <==> Faithful(ss)
  {
    if ss != [] {
      var init, s := ss[..|ss| - 1], ss[|ss| - 1];
      assert ss == init + [s];
      ReadIsDeclared(init, path);
      ReadStep(init, s, path);
      FaithfulStep(init, s);
    }
  }

  /** The semantic round trip and its exact domain: parsing the built descriptor
      gives exactly what the profile declares if and only if the profile is faithful. */
  lemma SemanticRoundTrip(p: DeviceProfile)
    ensures Parse(Descriptor(p)) == Some(AllDeclared(Sections(p), TopPath(p))) <==> Faithful(Sections(p))
  {
    DescriptorParses(p);
    ReadIsDeclared(Sections(p), TopPath(p));
  }

  // ---------- report ids alone ----------

  function IdsIn(fs: seq<Field>): (ids: seq<nat>)
    ensures |ids| == |fs| && forall i :: 0 <= i < |fs| ==> ids[i] == fs[i].reportId
  {
    if fs == [] then [] else IdsIn(fs[..|fs| - 1]) + [fs[|fs| - 1].reportId]
  }

  lemma IdsOfConcat(a: seq<Field>, b: seq<Field>)
    ensures IdsIn(a + b) == IdsIn(a) + IdsIn(b)
  {}

  lemma SectionIdsExact(fs: seq<FieldCaps>, kind: Kind, carried: nat, id: nat, path: seq<Collection>)
    ensures IdsIn(FieldsRead(fs, kind, carried, path)) == IdsIn(FieldsDeclared(fs, kind, id, path))
       <==> fs == [] || carried == id
  {
    var read, declared := FieldsRead(fs, kind, carried, path), FieldsDeclared(fs, kind, id, path);
    if fs != [] && IdsIn(read) == IdsIn(declared) {
      assert IdsIn(read)[0] == carried && IdsIn(declared)[0] == id;
    }
  }

  lemma {:induction false} IdsStep(init: seq<Section>, s: Section, path: seq<Collection>)
    ensures IdsIn(AllRead(init + [s], path)) == IdsIn(AllDeclared(init + [s], path))
       <==> && IdsIn(AllRead(init, path)) == IdsIn(AllDeclared(init, path))
            && (s.report.fields == [] || s.report.reportId != 0 || CarriedId(init) == 0)
  {
    var ss := init + [s];
    assert ss[..|ss| - 1] == init && ss[|ss| - 1] == s;
    var read := FieldsRead(s.report.fields, s.kind, CarriedId(ss), path);
    var declared := FieldsDeclared(s.report.fields, s.kind, s.report.reportId, path);
    SectionIdsExact(s.report.fields, s.kind, CarriedId(ss), s.report.reportId, path);
    ReadLength(init, path);
    IdsOfConcat(AllRead(init, path), read);
    IdsOfConcat(AllDeclared(init, path), declared);
    ConcatEqual(IdsIn(AllRead(init, path)), IdsIn(read), IdsIn(AllDeclared(init, path)), IdsIn(declared));
  }

  lemma {:induction false} IdsExact(ss: seq<Section>, path: seq<Collection>)
    ensures IdsIn(AllRead(ss, path)) == IdsIn(AllDeclared(ss, path)) <==> NoIdZeroLater(ss)
  {
    if ss != [] {
      var init, s := ss[..|ss| - 1], ss[|ss| - 1];
      assert ss == init + [s];
      IdsExact(init, path);
      IdsStep(init, s, path);
      NoIdZeroLaterStep(init, s);
    }
  }

  /** Fields are read with their own report ids exactly when no non-empty report without
      an id comes after a non-empty report with one; extents play no part. */
  lemma {:induction false} ReportIdsAttributed(p: DeviceProfile)
    ensures var parsed := Parse(Descriptor(p));
            && parsed.Some?
            && (IdsIn(parsed.value) == IdsIn(AllDeclared(Sections(p), TopPath(p)))
                <==> NoIdZeroLater(Sections(p)))
  {
    DescriptorParses(p);
    IdsExact(Sections(p), TopPath(p));
  }

  // ---------- ids as a strict host wants them ----------

  /** Every non-empty report has an id, or none has. */
  predicate ReportsHaveIds(ss: seq<Section>, some: bool) {
    forall i :: 0 <= i < |ss| ==> ss[i].report.fields == [] || (ss[i].report.reportId != 0) == some
  }

  lemma FieldsHaveIdsConcat(a: seq<Field>, b: seq<Field>, some: bool)
    ensures FieldsHaveIds(a + b, some) <==> FieldsHaveIds(a, some) && FieldsHaveIds(b, some)
  {
    var ab := a + b;
    assert forall k :: 0 <= k < |a| ==> ab[k] == a[k];
    assert forall k :: 0 <= k < |b| ==> ab[|a| + k] == b[k];
  }

  lemma ReportsHaveIdsStep(init: seq<Section>, s: Section, some: bool)
    ensures ReportsHaveIds(init + [s], some)
       <==> ReportsHaveIds(init, some) && (s.report.fields == [] || (s.report.reportId != 0) == some)
  {
    var ss, n := init + [s], |init|;
    assert ss[n] == s && forall i :: 0 <= i < n ==> ss[i] == init[i];
  }

  lemma {:induction false} DeclaredIds(ss: seq<Section>, path: seq<Collection>, some: bool)
    ensures FieldsHaveIds(AllDeclared(ss, path), some) <==> ReportsHaveIds(ss, some)
  {
    if ss != [] {
      var init, s := ss[..|ss| - 1], ss[|ss| - 1];
      var last := FieldsDeclared(s.report.fields, s.kind, s.report.reportId, path);
      assert ss == init + [s];
      DeclaredIds(init, path, some);
      FieldsHaveIdsConcat(AllDeclared(init, path), last, some);
      ReportsHaveIdsStep(init, s, some);
      if s.report.fields != [] {
        assert last[0].reportId == s.report.reportId;
      }
    }
  }

  /** The descriptor gives exactly what the profile declares, and ids as a strict host wants them,
      exactly when the profile is faithful and either all or none of its non-empty reports have an id. */
  lemma StrictRoundTrip(p: DeviceProfile)
    ensures var declared := AllDeclared(Sections(p), TopPath(p));
            (Parse(Descriptor(p)) == Some(declared) && IdsConsistent(declared)
             <==> Faithful(Sections(p)) && (ReportsHaveIds(Sections(p), true) || ReportsHaveIds(Sections(p), false)))
  {
    SemanticRoundTrip(p);
    DeclaredIds(Sections(p), TopPath(p), true);
    DeclaredIds(Sections(p), TopPath(p), false);
  }

  // ---------- concrete distortions ----------

  lemma OneSection(s: Section, path: seq<Collection>)
    ensures CarriedId([s]) == (if s.report.fields == [] then 0 else s.report.reportId)
    ensures AllRead([s], path) == FieldsRead(s.report.fields, s.kind, CarriedId([s]), path)
  {
    assert [s][..0] == [];
    assert AllRead([], path) + FieldsRead(s.report.fields, s.kind, CarriedId([s]), path)
        == FieldsRead(s.report.fields, s.kind, CarriedId([s]), path);
  }

  lemma TwoHundredReadBack(f: FieldCaps)
    requires f.logicalMin == 200
    ensures ReadBackMin(f) == -56
  {
    PayloadValue(200, true);
    ModulusValues();
  }

  lemma IdCarriedOver(a: Section, b: Section, path: seq<Collection>)
    requires |a.report.fields| == 1 && a.report.reportId == 5 && |b.report.fields| == 1 && b.report.reportId == 0
    ensures AllRead([a, b], path)
         == [ReadBack(a.report.fields[0], a.kind, 5, path), ReadBack(b.report.fields[0], b.kind, 5, path)]
  {
    OneSection(a, path);
    assert [a, b][..1] == [a];
    assert CarriedId([a, b]) == 5;
    assert AllRead([a, b], path) == AllRead([a], path) + FieldsRead(b.report.fields, b.kind, 5, path);
  }

  /** A minimum in an ambiguous band: 200 is encoded as C8 and read back as -56. */
  lemma MinimumDistorted(p: DeviceProfile, id: Byte, f: FieldCaps)
    requires p.inputReports == [ReportInfo(id, 0, [f])] && p.outputReports == p.featureReports == []
    requires f.logicalMin == 200
    ensures var parsed := Parse(Descriptor(p));
            parsed.Some? && |parsed.value| == 1 && parsed.value[0].logicalMin == -56
  {
    var s := Section(Input, p.inputReports[0]);
    assert Sections(p) == [s];
    DescriptorParses(p);
    OneSection(s, TopPath(p));
    TwoHundredReadBack(f);
  }

  /** A report without an id after one with id 5 is read with id 5. */
  lemma IdInherited(p: DeviceProfile, f: FieldCaps, g: FieldCaps)
    requires p.inputReports == [ReportInfo(5, 0, [f])] && p.outputReports == [ReportInfo(0, 0, [g])]
    requires p.featureReports == []
    ensures var parsed := Parse(Descriptor(p));
            && parsed.Some? && |parsed.value| == 2
            && parsed.value[0].kind == Input && parsed.value[0].reportId == 5
            && parsed.value[1].kind == Output && parsed.value[1].reportId == 5
  {
    var a, b := Section(Input, p.inputReports[0]), Section(Output, p.outputReports[0]);
    assert Sections(p) == [a, b];
    DescriptorParses(p);
    IdCarriedOver(a, b, TopPath(p));
  }

  // ---------- shape ----------

  predicate IsCollectionItem(e: Emission) { e.typ.Main? && (e.tag == 0xA || e.tag == 0xC) }

  lemma {:induction false} FlatFields(fs: seq<FieldCaps>, kind: Kind)
    ensures forall e :: e in FieldsItems(fs, kind) ==> !IsCollectionItem(e)
  {
    if fs != [] {
      FlatFields(fs[..|fs| - 1], kind);
    }
  }

  lemma {:induction false} FlatSections(ss: seq<Section>)
    ensures forall e :: e in SectionsItems(ss) ==> !IsCollectionItem(e)
  {
    if ss != [] {
      FlatSections(ss[..|ss| - 1]);
      FlatFields(ss[|ss| - 1].report.fields, ss[|ss| - 1].kind);
    }
  }

  lemma {:induction false} FlatRunKeepsPath(p: Parser, es: seq<Emission>)
    requires forall e :: e in es ==> !IsCollectionItem(e)
    ensures RunEmitted(p, es).path == p.path
    decreases |es|
  {
    if es != [] {
      assert es[0] in es;
      FlatRunKeepsPath(Step(p, ItemOf(es[0])), es[1..]);
    }
  }

  lemma {:induction false} FailureIsFinal(p: Parser, es: seq<Emission>)
    ensures RunEmitted(p, es).ok ==> p.ok
    decreases |es|
  {
    if es != [] {
      FailureIsFinal(Step(p, ItemOf(es[0])), es[1..]);
    }
  }

  lemma OpenAfter(p: DeviceProfile, k: nat)
    requires k < |DescriptorItems(p)|
    ensures RunEmitted(START, DescriptorItems(p)[..k]).path == if 3 <= k then TopPath(p) else []
  {
    var items, body := DescriptorItems(p), SectionsItems(Sections(p));
    if 3 <= k {
      assert items[..k] == Header(p) + body[..k - 3];
      HeaderParses(p);
      RunEmittedConcat(START, Header(p), body[..k - 3]);
      FlatSections(Sections(p));
      FlatRunKeepsPath(RunEmitted(START, Header(p)), body[..k - 3]);
    } else {
      assert items[..k] == Header(p)[..k];
      FlatRunKeepsPath(START, Header(p)[..k]);
    }
  }

  /** After any number of its items a descriptor has not failed, and exactly one
      collection is open strictly between the opening item and End Collection. */
  lemma WellNested(p: DeviceProfile, k: nat)
    requires k <= |DescriptorItems(p)|
    ensures var q := RunEmitted(START, DescriptorItems(p)[..k]);
            q.ok && q.path == if 3 <= k < |DescriptorItems(p)| then TopPath(p) else []
  {
    var items := DescriptorItems(p);
    WholeRun(p);
    assert items == items[..k] + items[k..];
    RunEmittedConcat(START, items[..k], items[k..]);
    FailureIsFinal(RunEmitted(START, items[..k]), items[k..]);
    if k < |items| {
      OpenAfter(p, k);
    }
  }

  function NonEmpty(ss: seq<Section>): nat {
    if ss == [] then 0
    else NonEmpty(ss[..|ss| - 1]) + if ss[|ss| - 1].report.fields == [] then 0 else 1
  }

  function FieldCount(ss: seq<Section>): nat {
    if ss == [] then 0 else FieldCount(ss[..|ss| - 1]) + |ss[|ss| - 1].report.fields|
  }

  lemma SizeOne(e: Emission)
    ensures |EmitAll([e])| == 1 + Width(e.data, e.force)
  {
    assert EmitAll([e]) == ItemBytes(e) + EmitAll([]);
  }

  lemma SizeTwo(a: Emission, b: Emission)
    ensures |EmitAll([a, b])| == 2 + Width(a.data, a.force) + Width(b.data, b.force)
  {
    assert [a, b] == [a] + [b];
    EmitAllConcat([a], [b]);
    SizeOne(a);
    SizeOne(b);
  }

  lemma FieldSize(f: FieldCaps, kind: Kind)
    ensures 14 <= |EmitAll(FieldItems(f, kind))| <= 27
  {
    var page, main := GlobalEmission(0x0, f.usagePage), Emission(MainTag(kind), Main, MainFlags(f), true);
    var lower, upper := GlobalEmission(0x1, f.logicalMin), GlobalEmission(0x2, f.logicalMax);
    var size, count := GlobalEmission(0x7, f.reportSize), GlobalEmission(0x9, f.reportCount);
    var rest := [lower, upper] + ([size, count] + [main]);
    assert FieldItems(f, kind) == [page] + UsageItems(f) + rest;
    EmitAllConcat([page] + UsageItems(f), rest);
    EmitAllConcat([page], UsageItems(f));
    EmitAllConcat([lower, upper], [size, count] + [main]);
    EmitAllConcat([size, count], [main]);
    SizeOne(page);
    SizeOne(main);
    SizeTwo(lower, upper);
    SizeTwo(size, count);
    UsagesSize(f);
  }

  lemma UsagesSize(f: FieldCaps)
    ensures 2 <= |EmitAll(UsageItems(f))| <= 6
  {
    if f.usageMin == f.usageMax {
      SizeOne(LocalEmission(0x0, f.usageMin));
    } else {
      SizeTwo(LocalEmission(0x1, f.usageMin), LocalEmission(0x2, f.usageMax));
    }
  }

  lemma {:induction false} FieldsSize(fs: seq<FieldCaps>, kind: Kind)
    ensures 14 * |fs| <= |EmitAll(FieldsItems(fs, kind))| <= 27 * |fs|
  {
    if fs != [] {
      FieldsSize(fs[..|fs| - 1], kind);
      FieldSize(fs[|fs| - 1], kind);
      EmitAllConcat(FieldsItems(fs[..|fs| - 1], kind), FieldItems(fs[|fs| - 1], kind));
    }
  }

  lemma {:induction false} SectionsSize(ss: seq<Section>)
    ensures 14 * FieldCount(ss) <= |EmitAll(SectionsItems(ss))| <= 2 * NonEmpty(ss) + 27 * FieldCount(ss)
  {
    if ss != [] {
      var init, s := ss[..|ss| - 1], ss[|ss| - 1];
      SectionsSize(init);
      FieldsSize(s.report.fields, s.kind);
      EmitAllConcat(SectionsItems(init), ReportItems(s.report, s.kind));
      if s.report.fields != [] {
        var id := if s.report.reportId != 0 then [GlobalEmission(0x8, s.report.reportId)] else [];
        EmitAllConcat(id, FieldsItems(s.report.fields, s.kind));
        assert |EmitAll(id)| <= 2;
      }
    }
  }

  /** With R non-empty reports and F fields, the length is within 7 + 14F and 9 + 2R + 27F bytes. */
  lemma DescriptorSize(p: DeviceProfile)
    ensures var ss := Sections(p);
            7 + 14 * FieldCount(ss) <= |Descriptor(p)| <= 9 + 2 * NonEmpty(ss) + 27 * FieldCount(ss)
  {
    SectionsSize(Sections(p));
    EmitAllConcat(Header(p) + SectionsItems(Sections(p)), [END_COLLECTION]);
    EmitAllConcat(Header(p), SectionsItems(Sections(p)));
    var a, b, c := GlobalEmission(0x0, TopPage(p)), LocalEmission(0x0, TopUsage(p)), Emission(0xA, Main, 1, true);
    assert Header(p) == [a] + [b, c];
    EmitAllConcat([a], [b, c]);
    SizeOne(END_COLLECTION);
    SizeOne(a);
    SizeTwo(b, c);
  }
}
