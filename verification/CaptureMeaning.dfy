/** The capture pipeline end to end: what the parser reads from the built
    descriptor, compared with the capability arrays that were captured. */
module CaptureMeaning {
  import opened Core
  import opened Profiles
  import opened HidParser
  import opened DescriptorBuilder
  import opened DescriptorMeaning
  import opened Capture

  // ---------- grouping ----------

  /** The fields captured for one report id, in order. */
  function FieldsFor(cs: seq<Captured>, id: Byte): seq<FieldCaps> {
    if cs == [] then []
    else
      var c := cs[|cs| - 1];
      FieldsFor(cs[..|cs| - 1], id) + if c.reportId == id then [c.field] else []
  }

  /** The report ids in order of first appearance. */
  function FirstIds(cs: seq<Captured>): seq<Byte> {
    if cs == [] then []
    else
      var ids, id := FirstIds(cs[..|cs| - 1]), cs[|cs| - 1].reportId;
      if id in ids then ids else ids + [id]
  }

  function Ids(rs: seq<ReportInfo>): (ids: seq<Byte>)
    ensures |ids| == |rs| && forall i :: 0 <= i < |rs| ==> ids[i] == rs[i].reportId
  {
    if rs == [] then [] else [rs[0].reportId] + Ids(rs[1..])
  }

  /** All fields of the reports with one id. */
  function FieldsWith(rs: seq<ReportInfo>, id: Byte): seq<FieldCaps> {
    if rs == [] then [] else (if rs[0].reportId == id then rs[0].fields else []) + FieldsWith(rs[1..], id)
  }

  predicate Distinct(ids: seq<Byte>) {
    forall i, j :: 0 <= i < j < |ids| ==> ids[i] != ids[j]
  }

  predicate NoneEmpty(rs: seq<ReportInfo>) {
    forall i :: 0 <= i < |rs| ==> rs[i].fields != []
  }

  lemma {:induction false} FieldsWithAbsent(rs: seq<ReportInfo>, id: Byte)
    requires id !in Ids(rs)
    ensures FieldsWith(rs, id) == []
  {
    if rs != [] {
      assert Ids(rs)[0] == rs[0].reportId;
      FieldsWithAbsent(rs[1..], id);
    }
  }

  lemma {:induction false} InsertIds(rs: seq<ReportInfo>, c: Captured)
    ensures Ids(Insert(rs, c)) == if c.reportId in Ids(rs) then Ids(rs) else Ids(rs) + [c.reportId]
    ensures NoneEmpty(rs) ==> NoneEmpty(Insert(rs, c))
  {
    if rs != [] {
      assert Ids(rs) == [rs[0].reportId] + Ids(rs[1..]);
      if rs[0].reportId != c.reportId {
        InsertIds(rs[1..], c);
        assert forall i :: 0 <= i < |rs[1..]| ==> rs[1..][i] == rs[i + 1];
      }
    }
  }

  lemma {:induction false} InsertFields(rs: seq<ReportInfo>, c: Captured, id: Byte)
    requires Distinct(Ids(rs))
    ensures FieldsWith(Insert(rs, c), id) == FieldsWith(rs, id) + if c.reportId == id then [c.field] else []
  {
    if rs != [] {
      var tail := rs[1..];
      assert Ids(rs) == [rs[0].reportId] + Ids(tail);
      if rs[0].reportId == c.reportId {
        if id == c.reportId {
          assert id !in Ids(tail) by {
            assert Ids(rs)[0] == id;
            assert forall k :: 0 <= k < |tail| ==> Ids(tail)[k] == Ids(rs)[k + 1];
          }
          FieldsWithAbsent(tail, id);
        }
      } else {
        assert Distinct(Ids(tail)) by {
          assert forall k :: 0 <= k < |tail| ==> Ids(tail)[k] == Ids(rs)[k + 1];
        }
        InsertFields(tail, c, id);
      }
    }
  }

  /** Grouping loses, duplicates and moves nothing: one non-empty report per id,
      ids in order of first appearance, and in each report exactly the captured
      fields with its id in their original order. */
  lemma {:induction false} CollectGroups(cs: seq<Captured>)
    ensures var rs := Collect([], cs);
            && Ids(rs) == FirstIds(cs) && Distinct(Ids(rs)) && NoneEmpty(rs)
            && forall id: Byte :: FieldsWith(rs, id) == FieldsFor(cs, id)
  {
    CollectIds(cs);
    forall id: Byte ensures FieldsWith(Collect([], cs), id) == FieldsFor(cs, id) {
      CollectFields(cs, id);
    }
  }

  lemma DistinctSnoc(ids: seq<Byte>, id: Byte)
    requires Distinct(ids) && id !in ids
    ensures Distinct(ids + [id])
  {}

  lemma {:induction false} CollectIds(cs: seq<Captured>)
    ensures var rs := Collect([], cs); Ids(rs) == FirstIds(cs) && Distinct(Ids(rs)) && NoneEmpty(rs)
  {
    if cs != [] {
      var init, c := cs[..|cs| - 1], cs[|cs| - 1];
      CollectIds(init);
      InsertIds(Collect([], init), c);
      if c.reportId !in FirstIds(init) {
        DistinctSnoc(FirstIds(init), c.reportId);
      }
    }
  }

  lemma {:induction false} CollectFields(cs: seq<Captured>, id: Byte)
    ensures FieldsWith(Collect([], cs), id) == FieldsFor(cs, id)
  {
    if cs != [] {
      var init, c := cs[..|cs| - 1], cs[|cs| - 1];
      CollectFields(init, id);
      CollectIds(init);
      InsertFields(Collect([], init), c, id);
    }
  }

  lemma {:induction false} LengthKeepsGroups(rs: seq<ReportInfo>, length: U16, id: Byte)
    ensures FieldsWith(WithLength(rs, length), id) == FieldsWith(rs, id)
    ensures Ids(WithLength(rs, length)) == Ids(rs)
  {
    if rs != [] {
      LengthKeepsGroups(rs[1..], length, id);
      assert WithLength(rs, length)[1..] == WithLength(rs[1..], length);
    }
  }

  // ---------- the parsed fields of one report ----------

  /** The parsed fields of one kind and report id, in descriptor order. */
  function Select(fs: seq<Field>, kind: Kind, id: nat): seq<Field> {
    if fs == [] then []
    else
      var f := fs[|fs| - 1];
      Select(fs[..|fs| - 1], kind, id) + if f.kind == kind && f.reportId == id then [f] else []
  }

  lemma {:induction false} SelectConcat(a: seq<Field>, b: seq<Field>, kind: Kind, id: nat)
    ensures Select(a + b, kind, id) == Select(a, kind, id) + Select(b, kind, id)
  {
    if b == [] {
      assert a + b == a;
    } else {
      SelectConcat(a, b[..|b| - 1], kind, id);
      assert (a + b)[..|a + b| - 1] == a + b[..|b| - 1];
    }
  }

  lemma {:induction false} SelectDeclared(
    fs: seq<FieldCaps>, kind: Kind, id: nat, path: seq<Collection>, k: Kind, i: nat)
    ensures Select(FieldsDeclared(fs, kind, id, path), k, i)
         == if kind == k && id == i then FieldsDeclared(fs, kind, id, path) else []
  {
    if fs != [] {
      var init := fs[..|fs| - 1];
      SelectDeclared(init, kind, id, path, k, i);
      var all := FieldsDeclared(fs, kind, id, path);
      assert all[..|all| - 1] == FieldsDeclared(init, kind, id, path);
    }
  }

  /** The declared fields of the sections with one kind and id. */
  function SectionFields(ss: seq<Section>, kind: Kind, id: nat): seq<FieldCaps> {
    if ss == [] then []
    else
      var s := ss[|ss| - 1];
      SectionFields(ss[..|ss| - 1], kind, id)
      + if s.kind == kind && s.report.reportId == id then s.report.fields else []
  }

  lemma {:induction false} DeclaredConcat(
    a: seq<FieldCaps>, b: seq<FieldCaps>, kind: Kind, id: nat, path: seq<Collection>)
    ensures FieldsDeclared(a + b, kind, id, path)
         == FieldsDeclared(a, kind, id, path) + FieldsDeclared(b, kind, id, path)
  {}

  lemma {:induction false} SelectSections(ss: seq<Section>, kind: Kind, id: nat, path: seq<Collection>)
    ensures Select(AllDeclared(ss, path), kind, id) == FieldsDeclared(SectionFields(ss, kind, id), kind, id, path)
  {
    if ss != [] {
      var init, s := ss[..|ss| - 1], ss[|ss| - 1];
      var last := FieldsDeclared(s.report.fields, s.kind, s.report.reportId, path);
      SelectSections(init, kind, id, path);
      SelectConcat(AllDeclared(init, path), last, kind, id);
      SelectDeclared(s.report.fields, s.kind, s.report.reportId, path, kind, id);
      DeclaredConcat(SectionFields(init, kind, id), s.report.fields, kind, id, path);
      if !(s.kind == kind && s.report.reportId == id) {
        assert SectionFields(init, kind, id) + [] == SectionFields(init, kind, id);
        assert Select(AllDeclared(init, path), kind, id) + [] == Select(AllDeclared(init, path), kind, id);
      }
    }
  }

  lemma {:induction false} SectionFieldsConcat(a: seq<Section>, b: seq<Section>, kind: Kind, id: nat)
    ensures SectionFields(a + b, kind, id) == SectionFields(a, kind, id) + SectionFields(b, kind, id)
  {
    if b == [] {
      assert a + b == a;
    } else {
      var init, last := b[..|b| - 1], b[|b| - 1];
      SectionFieldsConcat(a, init, kind, id);
      LastOfConcat(a, b);
      AppendAssociates(SectionFields(a, kind, id), SectionFields(init, kind, id), last.report.fields);
    }
  }

  lemma SectionFieldsOne(s: Section, kind: Kind, id: nat)
    ensures SectionFields([s], kind, id) == if s.kind == kind && s.report.reportId == id then s.report.fields else []
  {
    assert [s][..0] == [];
  }

  lemma {:induction false} SectionFieldsTagged(k: Kind, rs: seq<ReportInfo>, kind: Kind, id: Byte)
    ensures SectionFields(Tagged(k, rs), kind, id) == if k == kind then FieldsWith(rs, id) else []
  {
    if rs != [] {
      SectionFieldsOne(Section(k, rs[0]), kind, id);
      SectionFieldsConcat([Section(k, rs[0])], Tagged(k, rs[1..]), kind, id);
      SectionFieldsTagged(k, rs[1..], kind, id);
    }
  }

  function ReportsOf(p: DeviceProfile, kind: Kind): seq<ReportInfo> {
    match kind
    case Input => p.inputReports
    case Output => p.outputReports
    case Feature => p.featureReports
  }

  lemma SectionFieldsOfThree(a: seq<Section>, b: seq<Section>, c: seq<Section>, kind: Kind, id: nat)
    ensures SectionFields(a + b + c, kind, id)
         == SectionFields(a, kind, id) + SectionFields(b, kind, id) + SectionFields(c, kind, id)
  {
    SectionFieldsConcat(a + b, c, kind, id);
    SectionFieldsConcat(a, b, kind, id);
  }

  lemma SectionFieldsByKind(p: DeviceProfile, kind: Kind, id: Byte)
    ensures SectionFields(Sections(p), kind, id)
         == (if Input == kind then FieldsWith(p.inputReports, id) else [])
            + (if Output == kind then FieldsWith(p.outputReports, id) else [])
            + (if Feature == kind then FieldsWith(p.featureReports, id) else [])
  {
    SectionFieldsOfThree(Tagged(Input, p.inputReports), Tagged(Output, p.outputReports),
                         Tagged(Feature, p.featureReports), kind, id);
    SectionFieldsTagged(Input, p.inputReports, kind, id);
    SectionFieldsTagged(Output, p.outputReports, kind, id);
    SectionFieldsTagged(Feature, p.featureReports, kind, id);
  }

  lemma OneOfThree<T>(s: seq<T>)
    ensures s + [] + [] == s && [] + s + [] == s && [] + [] + s == s
  {}

  lemma SectionFieldsOfProfile(p: DeviceProfile, kind: Kind, id: Byte)
    ensures SectionFields(Sections(p), kind, id) == FieldsWith(ReportsOf(p, kind), id)
  {
    SectionFieldsByKind(p, kind, id);
    OneOfThree(FieldsWith(ReportsOf(p, kind), id));
  }

  // ---------- the condition, on the capability arrays ----------

  function CapsOf(caps: DeviceCaps, kind: Kind): seq<Captured> {
    match kind
    case Input => caps.input.All()
    case Output => caps.output.All()
    case Feature => caps.feature.All()
  }

  predicate Encodable(cs: seq<Captured>) {
    forall i :: 0 <= i < |cs| ==> RangeEncodable(cs[i].field)
  }

  /** No id 0 once another id has been used. */
  predicate NoLateZero(ids: seq<Byte>) {
    forall i, j :: 0 <= i < j < |ids| ==> ids[i] == 0 || ids[j] != 0
  }

  predicate IdsFaithful(caps: DeviceCaps) {
    NoLateZero(FirstIds(caps.input.All()) + FirstIds(caps.output.All()) + FirstIds(caps.feature.All()))
  }

  predicate CapsFaithful(caps: DeviceCaps) {
    && Encodable(caps.input.All()) && Encodable(caps.output.All()) && Encodable(caps.feature.All())
    && IdsFaithful(caps)
  }

  predicate ReportsEncodable(rs: seq<ReportInfo>) {
    forall i, k :: 0 <= i < |rs| && 0 <= k < |rs[i].fields| ==> RangeEncodable(rs[i].fields[k])
  }

  lemma {:induction false} InsertEncodable(rs: seq<ReportInfo>, c: Captured, i: nat)
    requires i <= |rs| && IsFirst(rs, c.reportId, i)
    ensures ReportsEncodable(Insert(rs, c)) <==> ReportsEncodable(rs) && RangeEncodable(c.field)
  {
    InsertAt(rs, c, i);
    var after := Insert(rs, c);
    if ReportsEncodable(after) {
      assert after[i].fields[|after[i].fields| - 1] == c.field;
      forall j, k | 0 <= j < |rs| && 0 <= k < |rs[j].fields| ensures RangeEncodable(rs[j].fields[k]) {
        assert rs[j].fields[k] == after[j].fields[k];
      }
    }
  }

  lemma {:induction false} FirstIndex(rs: seq<ReportInfo>, id: Byte) returns (i: nat)
    ensures i <= |rs| && IsFirst(rs, id, i)
  {
    if rs == [] || rs[0].reportId == id {
      i := 0;
    } else {
      var j := FirstIndex(rs[1..], id);
      i := j + 1;
      assert forall k :: 1 <= k < i ==> rs[k] == rs[1..][k - 1];
    }
  }

  lemma {:induction false} CollectEncodable(cs: seq<Captured>)
    ensures ReportsEncodable(Collect([], cs)) <==> Encodable(cs)
  {
    if cs != [] {
      var init, c := cs[..|cs| - 1], cs[|cs| - 1];
      CollectEncodable(init);
      var i := FirstIndex(Collect([], init), c.reportId);
      InsertEncodable(Collect([], init), c, i);
      assert forall k :: 0 <= k < |init| ==> cs[k] == init[k];
    }
  }

  function AllReports(p: DeviceProfile): seq<ReportInfo> {
    p.inputReports + p.outputReports + p.featureReports
  }

  lemma SectionsOfReports(p: DeviceProfile)
    ensures |Sections(p)| == |AllReports(p)|
    ensures forall i :: 0 <= i < |Sections(p)| ==> Sections(p)[i].report == AllReports(p)[i]
  {}

  lemma IdsOfReports(p: DeviceProfile)
    requires NoneEmpty(AllReports(p))
    ensures NoIdZeroLater(Sections(p)) <==> NoLateZero(Ids(AllReports(p)))
  {
    var ss, rs := Sections(p), AllReports(p);
    SectionsOfReports(p);
    if NoIdZeroLater(ss) {
      forall i, j | 0 <= i < j < |rs| ensures Ids(rs)[i] == 0 || Ids(rs)[j] != 0 {
        assert !IdZeroLater(ss, i, j);
      }
    }
    if NoLateZero(Ids(rs)) {
      forall i, j | 0 <= i < j < |ss| ensures !IdZeroLater(ss, i, j) {
        assert Ids(rs)[i] == ss[i].report.reportId && Ids(rs)[j] == ss[j].report.reportId;
      }
    }
  }

  lemma FaithfulReports(p: DeviceProfile)
    requires NoneEmpty(AllReports(p))
    ensures Faithful(Sections(p)) <==> ReportsEncodable(AllReports(p)) && NoLateZero(Ids(AllReports(p)))
  {
    var ss, rs := Sections(p), AllReports(p);
    SectionsOfReports(p);
    IdsOfReports(p);
    if Faithful(ss) {
      forall i, k | 0 <= i < |rs| && 0 <= k < |rs[i].fields| ensures RangeEncodable(rs[i].fields[k]) {
        assert ss[i].report == rs[i];
      }
    }
  }

  lemma IdsConcat(a: seq<ReportInfo>, b: seq<ReportInfo>)
    ensures Ids(a + b) == Ids(a) + Ids(b)
  {
    forall i | 0 <= i < |a + b|
      ensures Ids(a + b)[i] == (Ids(a) + Ids(b))[i]
    {
      if i >= |a| {
        assert (a + b)[i] == b[i - |a|];
      }
    }
  }

  lemma EncodableConcat(a: seq<ReportInfo>, b: seq<ReportInfo>)
    ensures ReportsEncodable(a + b) <==> ReportsEncodable(a) && ReportsEncodable(b)
  {
    var ab := a + b;
    assert forall i :: 0 <= i < |a| ==> ab[i] == a[i];
    assert forall i :: 0 <= i < |b| ==> ab[|a| + i] == b[i];
  }

  lemma LengthKeepsFields(rs: seq<ReportInfo>, length: U16)
    ensures NoneEmpty(WithLength(rs, length)) <==> NoneEmpty(rs)
    ensures ReportsEncodable(WithLength(rs, length)) <==> ReportsEncodable(rs)
  {
    var r := WithLength(rs, length);
    assert forall i :: 0 <= i < |rs| ==> r[i].fields == rs[i].fields;
  }

  lemma KindGroups(cs: seq<Captured>, length: U16)
    ensures var rs := WithLength(Collect([], cs), length);
            NoneEmpty(rs) && Ids(rs) == FirstIds(cs) && (ReportsEncodable(rs) <==> Encodable(cs))
  {
    CollectGroups(cs);
    CollectEncodable(cs);
    LengthKeepsFields(Collect([], cs), length);
    LengthKeepsGroups(Collect([], cs), length, 0);
  }

  lemma ProfileFaithful(p: DeviceProfile)
    requires NoneEmpty(p.inputReports) && NoneEmpty(p.outputReports) && NoneEmpty(p.featureReports)
    ensures NoIdZeroLater(Sections(p))
       <==> NoLateZero(Ids(p.inputReports) + Ids(p.outputReports) + Ids(p.featureReports))
    ensures Faithful(Sections(p))
       <==> && ReportsEncodable(p.inputReports) && ReportsEncodable(p.outputReports)
            && ReportsEncodable(p.featureReports)
            && NoLateZero(Ids(p.inputReports) + Ids(p.outputReports) + Ids(p.featureReports))
  {
    IdsConcat(p.inputReports, p.outputReports);
    IdsConcat(p.inputReports + p.outputReports, p.featureReports);
    EncodableConcat(p.inputReports, p.outputReports);
    EncodableConcat(p.inputReports + p.outputReports, p.featureReports);
    IdsOfReports(p);
    FaithfulReports(p);
  }

  /** A captured profile is faithful exactly when its capability arrays are. */
  lemma CapturedFaithful(identity: DeviceProfile, caps: DeviceCaps)
    ensures Faithful(Sections(Profiled(identity, caps))) <==> CapsFaithful(caps)
    ensures NoIdZeroLater(Sections(Profiled(identity, caps))) <==> IdsFaithful(caps)
  {
    var p := Profiled(identity, caps);
    KindGroups(caps.input.All(), caps.inputLength);
    KindGroups(caps.output.All(), caps.outputLength);
    KindGroups(caps.feature.All(), caps.featureLength);
    ProfileFaithful(p);
  }

  lemma CapturedFields(identity: DeviceProfile, caps: DeviceCaps, kind: Kind, id: Byte)
    ensures FieldsWith(ReportsOf(Profiled(identity, caps), kind), id) == FieldsFor(CapsOf(caps, kind), id)
  {
    CollectGroups(CapsOf(caps, kind));
    var length := match kind
      case Input => caps.inputLength
      case Output => caps.outputLength
      case Feature => caps.featureLength;
    LengthKeepsGroups(Collect([], CapsOf(caps, kind)), length, id);
  }

  /** What a parser reads from the built descriptor for a kind and report id is exactly the
      capabilities captured for them, buttons before values, in order. */
  predicate Recovered(identity: DeviceProfile, caps: DeviceCaps, kind: Kind, id: Byte) {
    var p := Profiled(identity, caps);
    && Parse(Descriptor(p)).Some?
    && Select(Parse(Descriptor(p)).value, kind, id)
       == FieldsDeclared(FieldsFor(CapsOf(caps, kind), id), kind, id, TopPath(p))
  }

  lemma {:induction false} RecoveredIsSelected(identity: DeviceProfile, caps: DeviceCaps, kind: Kind, id: Byte)
    ensures var p := Profiled(identity, caps);
            (Recovered(identity, caps, kind, id)
             <==> Select(AllRead(Sections(p), TopPath(p)), kind, id)
                  == Select(AllDeclared(Sections(p), TopPath(p)), kind, id))
  {
    var p := Profiled(identity, caps);
    DescriptorParses(p);
    SelectSections(Sections(p), kind, id, TopPath(p));
    SectionFieldsOfProfile(p, kind, id);
    CapturedFields(identity, caps, kind, id);
  }

  lemma {:induction false} SelectRead(fs: seq<FieldCaps>, kind: Kind, id: nat, path: seq<Collection>, k: Kind, i: nat)
    ensures Select(FieldsRead(fs, kind, id, path), k, i)
         == if kind == k && id == i then FieldsRead(fs, kind, id, path) else []
  {
    if fs != [] {
      var init := fs[..|fs| - 1];
      SelectRead(init, kind, id, path, k, i);
      var all := FieldsRead(fs, kind, id, path);
      assert all[..|all| - 1] == FieldsRead(init, kind, id, path);
    }
  }

  /** Both selections of one more section. */
  lemma {:induction false} SelectSnoc(init: seq<Section>, s: Section, path: seq<Collection>, k: Kind, i: nat)
    ensures var ss, id := init + [s], s.report.reportId;
            && Select(AllRead(ss, path), k, i) == Select(AllRead(init, path), k, i)
               + (if s.kind == k && CarriedId(ss) == i then FieldsRead(s.report.fields, k, i, path) else [])
            && Select(AllDeclared(ss, path), k, i) == Select(AllDeclared(init, path), k, i)
               + (if s.kind == k && id == i then FieldsDeclared(s.report.fields, k, i, path) else [])
  {
    var ss := init + [s];
    assert ss[..|ss| - 1] == init && ss[|ss| - 1] == s;
    SelectConcat(AllRead(init, path), FieldsRead(s.report.fields, s.kind, CarriedId(ss), path), k, i);
    SelectConcat(AllDeclared(init, path), FieldsDeclared(s.report.fields, s.kind, s.report.reportId, path), k, i);
    SelectRead(s.report.fields, s.kind, CarriedId(ss), path, k, i);
    SelectDeclared(s.report.fields, s.kind, s.report.reportId, path, k, i);
  }

  /** No field is read without an id unless it was declared without one. */
  lemma {:induction false} FewerReadWithoutId(ss: seq<Section>, path: seq<Collection>, k: Kind)
    ensures |Select(AllRead(ss, path), k, 0)| <= |Select(AllDeclared(ss, path), k, 0)|
  {
    if ss != [] {
      var init, s := ss[..|ss| - 1], ss[|ss| - 1];
      assert ss == init + [s];
      FewerReadWithoutId(init, path, k);
      FewerReadStep(init, s, path, k);
    }
  }

  lemma FewerReadStep(init: seq<Section>, s: Section, path: seq<Collection>, k: Kind)
    ensures |Select(AllRead(init + [s], path), k, 0)| - |Select(AllRead(init, path), k, 0)|
         <= |Select(AllDeclared(init + [s], path), k, 0)| - |Select(AllDeclared(init, path), k, 0)|
  {
    var ss := init + [s];
    assert ss[|ss| - 1] == s;
    assert s.report.fields != [] && CarriedId(ss) == 0 ==> s.report.reportId == 0;
    SelectSnoc(init, s, path, k, 0);
  }

  predicate SameSelections(ss: seq<Section>, path: seq<Collection>) {
    forall kind: Kind, id: Byte :: Select(AllRead(ss, path), kind, id) == Select(AllDeclared(ss, path), kind, id)
  }

  /** If every selection is as declared, then the last section was read as declared, and so
      were all selections before it. */
  lemma SameSelectionsStep(init: seq<Section>, s: Section, path: seq<Collection>)
    requires SameSelections(init + [s], path)
    ensures SameSelections(init, path)
    ensures FieldsRead(s.report.fields, s.kind, CarriedId(init + [s]), path)
         == FieldsDeclared(s.report.fields, s.kind, s.report.reportId, path)
  {
    var ss, id := init + [s], s.report.reportId;
    assert ss[..|ss| - 1] == init && ss[|ss| - 1] == s;
    if s.report.fields != [] && CarriedId(ss) != id {
      SelectSnoc(init, s, path, s.kind, 0);
      FewerReadWithoutId(init, path, s.kind);
      assert false;
    }
    forall k: Kind, i: Byte
      ensures Select(AllRead(init, path), k, i) == Select(AllDeclared(init, path), k, i)
      ensures s.kind == k && id == i ==>
                FieldsRead(s.report.fields, k, CarriedId(ss), path) == FieldsDeclared(s.report.fields, k, i, path)
    {
      SelectSnoc(init, s, path, k, i);
      SameEnds(Select(AllRead(init, path), k, i), Select(AllDeclared(init, path), k, i),
               if s.kind == k && CarriedId(ss) == i then FieldsRead(s.report.fields, k, i, path) else [],
               if s.kind == k && id == i then FieldsDeclared(s.report.fields, k, i, path) else []);
    }
  }

  lemma SameEnds<T>(a: seq<T>, b: seq<T>, c: seq<T>, d: seq<T>)
    requires a + c == b + d && |c| == |d|
    ensures a == b && c == d
  {
    ConcatEqual(a, c, b, d);
  }

  lemma {:induction false} SelectionsDetermine(ss: seq<Section>, path: seq<Collection>)
    requires SameSelections(ss, path)
    ensures AllRead(ss, path) == AllDeclared(ss, path)
  {
    if ss != [] {
      var init, s := ss[..|ss| - 1], ss[|ss| - 1];
      assert ss == init + [s];
      SameSelectionsStep(init, s, path);
      SelectionsDetermine(init, path);
    }
  }

  /** The pipeline preserves meaning, and its exact domain: every kind and report id is
      recovered if and only if the capability arrays are faithful. */
  lemma {:induction false} PipelinePreservesMeaning(identity: DeviceProfile, caps: DeviceCaps)
    ensures (forall kind: Kind, id: Byte :: Recovered(identity, caps, kind, id)) <==> CapsFaithful(caps)
  {
    var p := Profiled(identity, caps);
    CapturedFaithful(identity, caps);
    ReadIsDeclared(Sections(p), TopPath(p));
    forall kind: Kind, id: Byte
      ensures Recovered(identity, caps, kind, id)
         <==> Select(AllRead(Sections(p), TopPath(p)), kind, id)
              == Select(AllDeclared(Sections(p), TopPath(p)), kind, id)
    {
      RecoveredIsSelected(identity, caps, kind, id);
    }
    if forall kind: Kind, id: Byte :: Recovered(identity, caps, kind, id) {
      assert SameSelections(Sections(p), TopPath(p));
      SelectionsDetermine(Sections(p), TopPath(p));
    }
  }

  function ParsedBits(fs: seq<Field>): nat {
    if fs == [] then 0 else ParsedBits(fs[..|fs| - 1]) + fs[|fs| - 1].reportSize * fs[|fs| - 1].reportCount
  }

  function CapturedBits(cs: seq<Captured>, id: Byte): nat {
    if cs == [] then 0
    else
      var c := cs[|cs| - 1];
      CapturedBits(cs[..|cs| - 1], id)
      + if c.reportId == id then c.field.reportSize * c.field.reportCount else 0
  }

  function FieldBits(fs: seq<FieldCaps>): nat {
    if fs == [] then 0 else FieldBits(fs[..|fs| - 1]) + fs[|fs| - 1].reportSize * fs[|fs| - 1].reportCount
  }

  lemma {:induction false} DeclaredBits(fs: seq<FieldCaps>, kind: Kind, id: nat, path: seq<Collection>)
    ensures ParsedBits(FieldsDeclared(fs, kind, id, path)) == FieldBits(fs)
  {
    if fs != [] {
      var init, all := fs[..|fs| - 1], FieldsDeclared(fs, kind, id, path);
      DeclaredBits(init, kind, id, path);
      assert all[..|all| - 1] == FieldsDeclared(init, kind, id, path);
      assert all[|all| - 1] == Declared(fs[|fs| - 1], kind, id, path);
    }
  }

  lemma {:induction false} CapturedFieldBits(cs: seq<Captured>, id: Byte)
    ensures FieldBits(FieldsFor(cs, id)) == CapturedBits(cs, id)
  {
    if cs != [] {
      var init, c := cs[..|cs| - 1], cs[|cs| - 1];
      CapturedFieldBits(init, id);
      var fs := FieldsFor(init, id);
      if c.reportId == id {
        assert (fs + [c.field])[..|fs|] == fs;
      } else {
        assert fs + [] == fs;
      }
    }
  }

  lemma {:induction false} BitsOfConcat(a: seq<Field>, b: seq<Field>)
    ensures ParsedBits(a + b) == ParsedBits(a) + ParsedBits(b)
  {
    if b == [] {
      assert a + b == a;
    } else {
      BitsOfConcat(a, b[..|b| - 1]);
      LastOfConcat(a, b);
    }
  }

  lemma {:induction false} ReadBits(fs: seq<FieldCaps>, kind: Kind, id: nat, path: seq<Collection>)
    ensures ParsedBits(FieldsRead(fs, kind, id, path)) == FieldBits(fs)
  {
    if fs != [] {
      var init, all := fs[..|fs| - 1], FieldsRead(fs, kind, id, path);
      ReadBits(init, kind, id, path);
      assert all[..|all| - 1] == FieldsRead(init, kind, id, path);
      assert all[|all| - 1] == ReadBack(fs[|fs| - 1], kind, id, path);
    }
  }

  lemma {:induction false} SelectedBits(ss: seq<Section>, path: seq<Collection>, k: Kind, i: nat)
    requires NoIdZeroLater(ss)
    ensures ParsedBits(Select(AllRead(ss, path), k, i)) == ParsedBits(Select(AllDeclared(ss, path), k, i))
  {
    if ss != [] {
      var init, s := ss[..|ss| - 1], ss[|ss| - 1];
      assert ss == init + [s];
      NoIdZeroLaterStep(init, s);
      SelectedBits(init, path, k, i);
      SelectedBitsStep(init, s, path, k, i);
    }
  }

  lemma SelectedBitsStep(init: seq<Section>, s: Section, path: seq<Collection>, k: Kind, i: nat)
    requires s.report.fields == [] || s.report.reportId != 0 || CarriedId(init) == 0
    requires ParsedBits(Select(AllRead(init, path), k, i)) == ParsedBits(Select(AllDeclared(init, path), k, i))
    ensures ParsedBits(Select(AllRead(init + [s], path), k, i))
         == ParsedBits(Select(AllDeclared(init + [s], path), k, i))
  {
    var ss, fs := init + [s], s.report.fields;
    assert ss[..|ss| - 1] == init && ss[|ss| - 1] == s;
    SelectSnoc(init, s, path, k, i);
    ReadBits(fs, k, i, path);
    DeclaredBits(fs, k, i, path);
    SameBitsAppended(Select(AllRead(init, path), k, i), Select(AllDeclared(init, path), k, i),
                     if s.kind == k && CarriedId(ss) == i then FieldsRead(fs, k, i, path) else [],
                     if s.kind == k && s.report.reportId == i then FieldsDeclared(fs, k, i, path) else []);
  }

  lemma SameBitsAppended(a: seq<Field>, b: seq<Field>, c: seq<Field>, d: seq<Field>)
    requires ParsedBits(a) == ParsedBits(b) && ParsedBits(c) == ParsedBits(d)
    ensures ParsedBits(a + c) == ParsedBits(b + d)
  {
    BitsOfConcat(a, c);
    BitsOfConcat(b, d);
  }

  /** The parsed bits of a report are those of the captured fields, as soon as report ids
      are faithful; extents play no part. */
  lemma {:induction false} ParsedBitsAreCaptured(identity: DeviceProfile, caps: DeviceCaps, kind: Kind, id: Byte)
    requires IdsFaithful(caps)
    ensures var fields := Parse(Descriptor(Profiled(identity, caps)));
            fields.Some? && ParsedBits(Select(fields.value, kind, id)) == CapturedBits(CapsOf(caps, kind), id)
  {
    var p := Profiled(identity, caps);
    CapturedFaithful(identity, caps);
    DescriptorParses(p);
    SelectedBits(Sections(p), TopPath(p), kind, id);
    SelectSections(Sections(p), kind, id, TopPath(p));
    SectionFieldsOfProfile(p, kind, id);
    CapturedFields(identity, caps, kind, id);
    DeclaredBits(FieldsFor(CapsOf(caps, kind), id), kind, id, TopPath(p));
    CapturedFieldBits(CapsOf(caps, kind), id);
  }

  // ---------- bits of the capability arrays themselves ----------

  function ButtonBits(c: ButtonCaps): int {
    if c.usages.InRange? then c.usages.last - c.usages.first + 1 else 1
  }

  function RawButtonBits(cs: seq<ButtonCaps>, id: Byte): int {
    if cs == [] then 0
    else
      var c := cs[|cs| - 1];
      RawButtonBits(cs[..|cs| - 1], id) + if c.reportId == id then ButtonBits(c) else 0
  }

  function RawValueBits(cs: seq<ValueCaps>, id: Byte): int {
    if cs == [] then 0
    else
      var c := cs[|cs| - 1];
      RawValueBits(cs[..|cs| - 1], id) + if c.reportId == id then c.bitSize * c.reportCount else 0
  }

  function KindOf(caps: DeviceCaps, kind: Kind): KindCaps {
    match kind
    case Input => caps.input
    case Output => caps.output
    case Feature => caps.feature
  }

  function RawBits(caps: KindCaps, id: Byte): int {
    RawButtonBits(caps.buttons.Read(), id) + RawValueBits(caps.values.Read(), id)
  }

  predicate Ordered(c: ButtonCaps) { c.usages.InRange? ==> c.usages.first <= c.usages.last }

  /** A range of all 65536 usages, whose count does not fit in 16 bits. */
  predicate FullRange(c: ButtonCaps) { c.usages.InRange? && c.usages.first == 0 && c.usages.last == 0xFFFF }

  /** A range that ends more than one usage before it begins, whose count is negative. */
  predicate InvertedRange(c: ButtonCaps) { c.usages.InRange? && c.usages.last + 1 < c.usages.first }

  predicate NoFullRange(cs: seq<ButtonCaps>, id: Byte) {
    forall i :: 0 <= i < |cs| && cs[i].reportId == id ==> !FullRange(cs[i])
  }

  /** How many button capabilities with the id are of the given kind. */
  function HowMany(cs: seq<ButtonCaps>, id: Byte, kind: ButtonCaps -> bool): nat {
    if cs == [] then 0
    else
      var c := cs[|cs| - 1];
      HowMany(cs[..|cs| - 1], id, kind) + if c.reportId == id && kind(c) then 1 else 0
  }

  lemma {:induction false} HowManyIsZero(cs: seq<ButtonCaps>, id: Byte, kind: ButtonCaps -> bool)
    ensures HowMany(cs, id, kind) == 0 <==> forall i :: 0 <= i < |cs| && cs[i].reportId == id ==> !kind(cs[i])
  {
    if cs != [] {
      var n := |cs| - 1;
      HowManyIsZero(cs[..n], id, kind);
      assert forall i :: 0 <= i < n ==> cs[..n][i] == cs[i];
    }
  }

  /** The count of a button range is kept modulo 65536. */
  lemma CapturedButton(c: ButtonCaps)
    ensures var f := FromButton(c).field;
            f.reportSize * f.reportCount
            == ButtonBits(c) + (if InvertedRange(c) then 0x1_0000 else if FullRange(c) then -0x1_0000 else 0)
  {}

  lemma CapturedBitsSnoc(cs: seq<Captured>, c: Captured, id: Byte)
    ensures CapturedBits(cs + [c], id)
         == CapturedBits(cs, id) + if c.reportId == id then c.field.reportSize * c.field.reportCount else 0
  {
    assert (cs + [c])[..|cs|] == cs;
  }

  lemma {:induction false} CapturedButtonBits(cs: seq<ButtonCaps>, id: Byte)
    ensures CapturedBits(FromButtons(cs), id)
         == RawButtonBits(cs, id) + 0x1_0000 * (HowMany(cs, id, InvertedRange) - HowMany(cs, id, FullRange))
  {
    if cs != [] {
      var init, c := cs[..|cs| - 1], cs[|cs| - 1];
      CapturedButtonBits(init, id);
      CapturedButton(c);
      CapturedBitsSnoc(FromButtons(init), FromButton(c), id);
    }
  }

  lemma {:induction false} CapturedValueBits(cs: seq<ValueCaps>, id: Byte)
    ensures CapturedBits(FromValues(cs), id) == RawValueBits(cs, id)
  {
    if cs != [] {
      CapturedValueBits(cs[..|cs| - 1], id);
      assert FromValues(cs)[..|cs| - 1] == FromValues(cs[..|cs| - 1]);
    }
  }

  lemma {:induction false} CapturedBitsConcat(a: seq<Captured>, b: seq<Captured>, id: Byte)
    ensures CapturedBits(a + b, id) == CapturedBits(a, id) + CapturedBits(b, id)
  {
    if b == [] {
      assert a + b == a;
    } else {
      CapturedBitsConcat(a, b[..|b| - 1], id);
      LastOfConcat(a, b);
    }
  }

  /** The exact balance from the capability arrays to the parser: every inverted button range
      of a report adds 65536 bits, every full one loses as many, and nothing else changes. */
  lemma {:induction false} BitsConserved(identity: DeviceProfile, caps: DeviceCaps, kind: Kind, id: Byte)
    requires IdsFaithful(caps)
    ensures var fields, buttons := Parse(Descriptor(Profiled(identity, caps))), KindOf(caps, kind).buttons.Read();
            && fields.Some?
            && ParsedBits(Select(fields.value, kind, id))
               == RawBits(KindOf(caps, kind), id)
                  + 0x1_0000 * (HowMany(buttons, id, InvertedRange) - HowMany(buttons, id, FullRange))
  {
    ParsedBitsAreCaptured(identity, caps, kind, id);
    AllOfKind(caps, kind);
    KindBits(KindOf(caps, kind), id);
  }

  lemma AllOfKind(caps: DeviceCaps, kind: Kind)
    ensures CapsOf(caps, kind) == KindOf(caps, kind).All()
  {}

  lemma {:induction false} KindBits(k: KindCaps, id: Byte)
    ensures CapturedBits(k.All(), id)
         == RawBits(k, id) + 0x1_0000 * (HowMany(k.buttons.Read(), id, InvertedRange)
                                         - HowMany(k.buttons.Read(), id, FullRange))
  {
    CapturedBitsConcat(FromButtons(k.buttons.Read()), FromValues(k.values.Read()), id);
    CapturedButtonBits(k.buttons.Read(), id);
    CapturedValueBits(k.values.Read(), id);
  }

  /** With ranges in order no bits appear, and none are lost exactly when no range is full. */
  lemma {:induction false} OrderedBitsConserved(identity: DeviceProfile, caps: DeviceCaps, kind: Kind, id: Byte)
    requires IdsFaithful(caps)
    requires forall i :: 0 <= i < |KindOf(caps, kind).buttons.Read()| ==> Ordered(KindOf(caps, kind).buttons.Read()[i])
    ensures var fields, raw := Parse(Descriptor(Profiled(identity, caps))), RawBits(KindOf(caps, kind), id);
            && fields.Some? && ParsedBits(Select(fields.value, kind, id)) <= raw
            && (ParsedBits(Select(fields.value, kind, id)) == raw
                <==> NoFullRange(KindOf(caps, kind).buttons.Read(), id))
  {
    BitsConserved(identity, caps, kind, id);
    OrderedCounts(KindOf(caps, kind).buttons.Read(), id);
  }

  lemma OrderedCounts(cs: seq<ButtonCaps>, id: Byte)
    requires forall i :: 0 <= i < |cs| ==> Ordered(cs[i])
    ensures HowMany(cs, id, InvertedRange) == 0
    ensures HowMany(cs, id, FullRange) == 0 <==> NoFullRange(cs, id)
  {
    HowManyIsZero(cs, id, InvertedRange);
    HowManyIsZero(cs, id, FullRange);
  }

  const NO_CAPS: KindCaps := KindCaps(Answer(0, None), Answer(0, None))

  /** A device whose only capability is one button range, read in input reports. */
  function LoneButton(c: ButtonCaps): DeviceCaps {
    DeviceCaps(0xFF00, 1, KindCaps(Answer(1, Some([c])), Answer(0, None)), NO_CAPS, NO_CAPS, 0, 0, 0)
  }

  lemma LoneButtonCaptured(c: ButtonCaps)
    ensures LoneButton(c).input.All() == [FromButton(c)]
    ensures LoneButton(c).output.All() == [] && LoneButton(c).feature.All() == []
  {
    assert [c][..0] == [];
    assert FromButtons([c]) == [FromButton(c)];
  }

  lemma LoneButtonIds(c: ButtonCaps)
    ensures IdsFaithful(LoneButton(c))
  {
    LoneButtonCaptured(c);
    assert [FromButton(c)][..0] == [];
    assert FirstIds([FromButton(c)]) == [c.reportId];
  }

  lemma LoneButtonBits(c: ButtonCaps)
    requires FullRange(c)
    ensures CapturedBits([FromButton(c)], c.reportId) == 0 && RawBits(LoneButton(c).input, c.reportId) == 0x1_0000
  {
    assert [FromButton(c)][..0] == [] && [c][..0] == [];
    assert LoneButton(c).input.buttons.Read() == [c] && LoneButton(c).input.values.Read() == [];
    assert RawButtonBits([c], c.reportId) == ButtonBits(c) == 0x1_0000;
    CapturedButton(c);
  }

  /** One button capability for all 65536 usages of a page: the descriptor gives it no bits. */
  lemma {:induction false} FullRangeLost(identity: DeviceProfile, page: U16, id: Byte)
    ensures var caps := LoneButton(ButtonCaps(page, id, true, InRange(0, 0xFFFF)));
            var fields := Parse(Descriptor(Profiled(identity, caps)));
            && RawBits(caps.input, id) == 0x1_0000
            && fields.Some? && ParsedBits(Select(fields.value, Input, id)) == 0
  {
    var c := ButtonCaps(page, id, true, InRange(0, 0xFFFF));
    LoneButtonCaptured(c);
    LoneButtonIds(c);
    LoneButtonBits(c);
    ParsedBitsAreCaptured(identity, LoneButton(c), Input, id);
  }
}
