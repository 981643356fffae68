/** Saving a profile as a JSON tree and loading it back: device_profile.cpp, lines 36-159. */
module ProfileJson {
  import opened Core
  import opened Profiles
  import opened HexCodec

  /** The tree the JSON library prints and parses; numbers are its integers. */
  datatype Json =
    | Null
    | Bool(flag: bool)
    | Number(number: int)
    | Text(text: string)
    | Array(items: seq<Json>)
    | Object(members: map<string, Json>)

  /** The two exceptions of a defaulting lookup. */
  datatype JsonError = NotAnObject | WrongType

  type Reading<T> = Result<T, JsonError>

  /** A number, or a truth value standing for one, as the library hands it out before narrowing. */
  function Integer(j: Json): Reading<int> {
    match j
    case Number(n) => Ok(n)
    case Bool(b) => Ok(if b then 1 else 0)
    case _ => Err(WrongType)
  }

  /** Narrowing to an unsigned type of the given modulus wraps. */
  function AsByte(j: Json): Reading<Byte> {
    var n :- Integer(j);
    Ok(n % 0x100)
  }

  function AsU16(j: Json): Reading<U16> {
    var n :- Integer(j);
    Ok(n % 0x1_0000)
  }

  function AsU32(j: Json): Reading<U32> {
    var n :- Integer(j);
    Ok(n % 0x1_0000_0000)
  }

  function AsI32(j: Json): Reading<I32> {
    var n :- Integer(j);
    Ok((n + 0x8000_0000) % 0x1_0000_0000 - 0x8000_0000)
  }

  function AsBool(j: Json): Reading<bool> {
    if j.Bool? then Ok(j.flag) else Err(WrongType)
  }

  function AsText(j: Json): Reading<string> {
    if j.Text? then Ok(j.text) else Err(WrongType)
  }

  /** `value(key, fallback)`: only a missing key takes the fallback; a wrong type is an exception. */
  function Value<T>(j: Json, key: string, fallback: T, convert: Json -> Reading<T>): Reading<T> {
    if !j.Object? then Err(NotAnObject)
    else if key !in j.members then Ok(fallback)
    else convert(j.members[key])
  }

  function FieldToJson(f: FieldCaps): Json {
    Object(map[
             "usage_page" := Number(f.usagePage),
             "usage_min" := Number(f.usageMin),
             "usage_max" := Number(f.usageMax),
             "logical_min" := Number(f.logicalMin),
             "logical_max" := Number(f.logicalMax),
             "physical_min" := Number(f.physicalMin),
             "physical_max" := Number(f.physicalMax),
             "report_size" := Number(f.reportSize),
             "report_count" := Number(f.reportCount),
             "unit" := Number(f.unit),
             "unit_exponent" := Number(f.unitExponent),
             "is_button" := Bool(f.isButton),
             "is_absolute" := Bool(f.isAbsolute),
             "has_null" := Bool(f.hasNull)])
  }

  function FieldFromJson(j: Json): Reading<FieldCaps> {
    var usagePage :- Value(j, "usage_page", 0, AsU16);
    var usageMin :- Value(j, "usage_min", 0, AsU16);
    var usageMax :- Value(j, "usage_max", 0, AsU16);
    var logicalMin :- Value(j, "logical_min", 0, AsI32);
    var logicalMax :- Value(j, "logical_max", 0, AsI32);
    var physicalMin :- Value(j, "physical_min", 0, AsI32);
    var physicalMax :- Value(j, "physical_max", 0, AsI32);
    var reportSize :- Value(j, "report_size", 0, AsU16);
    var reportCount :- Value(j, "report_count", 0, AsU16);
    var unit :- Value(j, "unit", 0, AsU32);
    var unitExponent :- Value(j, "unit_exponent", 0, AsU32);
    var isButton :- Value(j, "is_button", false, AsBool);
    var isAbsolute :- Value(j, "is_absolute", true, AsBool);
    var hasNull :- Value(j, "has_null", false, AsBool);
    Ok(FieldCaps(usagePage, usageMin, usageMax, logicalMin, logicalMax, physicalMin, physicalMax,
                 reportSize, reportCount, unit, unitExponent, isButton, isAbsolute, hasNull))
  }

  /** Narrowing keeps a number exactly when it fits. */
  lemma NarrowingIsExactInRange(n: int)
    ensures AsByte(Number(n)) == Ok(n) <==> 0 <= n < 0x100
    ensures AsU16(Number(n)) == Ok(n) <==> 0 <= n < 0x1_0000
    ensures AsU32(Number(n)) == Ok(n) <==> 0 <= n < 0x1_0000_0000
    ensures AsI32(Number(n)) == Ok(n) <==> -0x8000_0000 <= n < 0x8000_0000
  {}

  lemma UsagesAndRangesFound(f: FieldCaps)
    ensures
      var j := FieldToJson(f);
      && Value(j, "usage_page", 0, AsU16) == Ok(f.usagePage)
      && Value(j, "usage_min", 0, AsU16) == Ok(f.usageMin)
      && Value(j, "usage_max", 0, AsU16) == Ok(f.usageMax)
      && Value(j, "logical_min", 0, AsI32) == Ok(f.logicalMin)
      && Value(j, "logical_max", 0, AsI32) == Ok(f.logicalMax)
      && Value(j, "physical_min", 0, AsI32) == Ok(f.physicalMin)
      && Value(j, "physical_max", 0, AsI32) == Ok(f.physicalMax)
  {}

  lemma SizesUnitsAndFlagsFound(f: FieldCaps)
    ensures
      var j := FieldToJson(f);
      && Value(j, "report_size", 0, AsU16) == Ok(f.reportSize)
      && Value(j, "report_count", 0, AsU16) == Ok(f.reportCount)
      && Value(j, "unit", 0, AsU32) == Ok(f.unit)
      && Value(j, "unit_exponent", 0, AsU32) == Ok(f.unitExponent)
      && Value(j, "is_button", false, AsBool) == Ok(f.isButton)
      && Value(j, "is_absolute", true, AsBool) == Ok(f.isAbsolute)
      && Value(j, "has_null", false, AsBool) == Ok(f.hasNull)
  {}

  lemma FieldRoundTrip(f: FieldCaps)
    ensures FieldFromJson(FieldToJson(f)) == Ok(f)
  {
    UsagesAndRangesFound(f);
    SizesUnitsAndFlagsFound(f);
  }

  function WriteAll<T>(xs: seq<T>, write: T -> Json): seq<Json> {
    seq(|xs|, i requires 0 <= i < |xs| => write(xs[i]))
  }

  /** Reads items in order and stops at the first exception. */
  function ReadAll<T>(items: seq<Json>, read: Json -> Reading<T>): Reading<seq<T>> {
    if items == [] then Ok([]) else
      var front :- ReadAll(items[..|items| - 1], read);
      var last :- read(items[|items| - 1]);
      Ok(front + [last])
  }

  lemma {:induction false} FirstErrorStays<T>(items: seq<Json>, n: nat, read: Json -> Reading<T>)
    requires n <= |items| && ReadAll(items[..n], read).Err?
    ensures ReadAll(items, read) == Err(ReadAll(items[..n], read).error)
  {
    if n == |items| {
      assert items[..n] == items;
    } else {
      var front := items[..|items| - 1];
      assert front[..n] == items[..n];
      FirstErrorStays(front, n, read);
    }
  }

  lemma {:induction false} ListRoundTrip<T>(xs: seq<T>, write: T -> Json, read: Json -> Reading<T>)
    requires forall x :: x in xs ==> read(write(x)) == Ok(x)
    ensures ReadAll(WriteAll(xs, write), read) == Ok(xs)
  {
    if xs == [] {
    } else {
      var n := |xs| - 1;
      ListRoundTrip(xs[..n], write, read);
      assert WriteAll(xs, write)[..n] == WriteAll(xs[..n], write);
      assert xs[..n] + [xs[n]] == xs;
    }
  }

  function FieldsToJson(fields: seq<FieldCaps>): Json {
    Array(WriteAll(fields, FieldToJson))
  }

  function ReportToJson(r: ReportInfo): Json {
    Object(map[
             "report_id" := Number(r.reportId),
             "byte_length" := Number(r.byteLength),
             "fields" := FieldsToJson(r.fields)])
  }

  predicate Contains(j: Json, key: string) {
    j.Object? && key in j.members
  }

  function ReportFromJson(j: Json): Reading<ReportInfo> {
    var reportId :- Value(j, "report_id", 0, AsByte);
    var byteLength :- Value(j, "byte_length", 0, AsU16);
    if Contains(j, "fields") && j.members["fields"].Array? then
      var fields :- ReadAll(j.members["fields"].items, FieldFromJson);
      Ok(ReportInfo(reportId, byteLength, fields))
    else Ok(ReportInfo(reportId, byteLength, []))
  }

  lemma FieldsRoundTrip(fields: seq<FieldCaps>)
    ensures ReadAll(WriteAll(fields, FieldToJson), FieldFromJson) == Ok(fields)
  {
    forall f | f in fields ensures FieldFromJson(FieldToJson(f)) == Ok(f) {
      FieldRoundTrip(f);
    }
    ListRoundTrip(fields, FieldToJson, FieldFromJson);
  }

  lemma ReportRoundTrip(r: ReportInfo)
    ensures ReportFromJson(ReportToJson(r)) == Ok(r)
  {
    FieldsRoundTrip(r.fields);
  }

  function ReportsToJson(rs: seq<ReportInfo>): Json {
    Array(WriteAll(rs, ReportToJson))
  }

  /** Anything but an array reads as no reports. */
  function ReportsFromJson(j: Json): Reading<seq<ReportInfo>> {
    if j.Array? then ReadAll(j.items, ReportFromJson) else Ok([])
  }

  lemma ReportsRoundTrip(rs: seq<ReportInfo>)
    ensures ReportsFromJson(ReportsToJson(rs)) == Ok(rs)
  {
    forall r | r in rs ensures ReportFromJson(ReportToJson(r)) == Ok(r) {
      ReportRoundTrip(r);
    }
    ListRoundTrip(rs, ReportToJson, ReportFromJson);
  }

  const PROFILE_VERSION := 1

  function ProfileToJson(p: DeviceProfile): Json {
    Object(map[
             "vhid_profile_version" := Number(PROFILE_VERSION),
             "vendor_id" := Number(p.vendorId),
             "product_id" := Number(p.productId),
             "version_number" := Number(p.versionNumber),
             "manufacturer" := Text(p.manufacturer),
             "product" := Text(p.product),
             "serial_number" := Text(p.serialNumber),
             "usage_page" := Number(p.usagePage),
             "usage" := Number(p.usage),
             "input_reports" := ReportsToJson(p.inputReports),
             "output_reports" := ReportsToJson(p.outputReports),
             "feature_reports" := ReportsToJson(p.featureReports),
             "report_descriptor" := Text(ToHex(p.reportDescriptor))])
  }

  function ReportsUnder(j: Json, key: string): Reading<seq<ReportInfo>> {
    if Contains(j, key) then ReportsFromJson(j.members[key]) else Ok([])
  }

  function DescriptorUnder(j: Json, key: string): seq<Byte> {
    if Contains(j, key) && j.members[key].Text? then FromHex(j.members[key].text) else []
  }

  function ProfileFromJson(j: Json): Reading<DeviceProfile> {
    var vendorId :- Value(j, "vendor_id", 0, AsU16);
    var productId :- Value(j, "product_id", 0, AsU16);
    var versionNumber :- Value(j, "version_number", 0, AsU16);
    var manufacturer :- Value(j, "manufacturer", "", AsText);
    var product :- Value(j, "product", "", AsText);
    var serialNumber :- Value(j, "serial_number", "", AsText);
    var usagePage :- Value(j, "usage_page", 0, AsU16);
    var usage :- Value(j, "usage", 0, AsU16);
    var inputs :- ReportsUnder(j, "input_reports");
    var outputs :- ReportsUnder(j, "output_reports");
    var features :- ReportsUnder(j, "feature_reports");
    Ok(DeviceProfile(vendorId, productId, versionNumber, manufacturer, product, serialNumber,
                     usagePage, usage, inputs, outputs, features,
                     DescriptorUnder(j, "report_descriptor")))
  }

  lemma StringsAndNumbersFound(p: DeviceProfile)
    ensures
      var j := ProfileToJson(p);
      && Value(j, "vendor_id", 0, AsU16) == Ok(p.vendorId)
      && Value(j, "product_id", 0, AsU16) == Ok(p.productId)
      && Value(j, "version_number", 0, AsU16) == Ok(p.versionNumber)
      && Value(j, "manufacturer", "", AsText) == Ok(p.manufacturer)
      && Value(j, "product", "", AsText) == Ok(p.product)
      && Value(j, "serial_number", "", AsText) == Ok(p.serialNumber)
      && Value(j, "usage_page", 0, AsU16) == Ok(p.usagePage)
      && Value(j, "usage", 0, AsU16) == Ok(p.usage)
  {}

  lemma ReportsFound(p: DeviceProfile)
    ensures
      var j := ProfileToJson(p);
      && ReportsUnder(j, "input_reports") == Ok(p.inputReports)
      && ReportsUnder(j, "output_reports") == Ok(p.outputReports)
      && ReportsUnder(j, "feature_reports") == Ok(p.featureReports)
      && DescriptorUnder(j, "report_descriptor") == p.reportDescriptor
  {
    ReportsRoundTrip(p.inputReports);
    ReportsRoundTrip(p.outputReports);
    ReportsRoundTrip(p.featureReports);
    HexRoundTrip(p.reportDescriptor);
  }

  /** Loading what was saved gives back the whole profile, nested reports and fields included. */
  lemma ProfileRoundTrip(p: DeviceProfile)
    ensures ProfileFromJson(ProfileToJson(p)) == Ok(p)
  {
    StringsAndNumbersFound(p);
    ReportsFound(p);
  }

  ghost const KNOWN_KEYS: set<string> := {
    "vendor_id", "product_id", "version_number", "manufacturer", "product", "serial_number",
    "usage_page", "usage", "input_reports", "output_reports", "feature_reports", "report_descriptor"
  }

  /** Members under other keys change nothing; the format version a file claims is one of those. */
  lemma UnknownKeysAreIgnored(members: map<string, Json>, key: string, extra: Json)
    requires key !in KNOWN_KEYS
    ensures ProfileFromJson(Object(members[key := extra])) == ProfileFromJson(Object(members))
    ensures "vhid_profile_version" !in KNOWN_KEYS
  {}

  /** A saved profile loads the same whatever format version is written into it. */
  lemma AnyVersionLoads(p: DeviceProfile, version: int)
    ensures ProfileFromJson(Object(ProfileToJson(p).members["vhid_profile_version" := Number(version)])) == Ok(p)
  {
    UnknownKeysAreIgnored(ProfileToJson(p).members, "vhid_profile_version", Number(version));
    ProfileRoundTrip(p);
  }

  // ---------- what loads and what throws ----------

  /** A list is read exactly when every item is, and then item by item. */
  lemma {:induction false} ListReadsWhenItemsDo<T>(items: seq<Json>, read: Json -> Reading<T>)
    ensures var r := ReadAll(items, read);
            && (r.Ok? <==> forall i :: 0 <= i < |items| ==> read(items[i]).Ok?)
            && (r.Ok? ==> |r.value| == |items| && forall i :: 0 <= i < |items| ==> Ok(r.value[i]) == read(items[i]))
  {
    if items != [] {
      var n := |items| - 1;
      ListReadsWhenItemsDo(items[..n], read);
      assert forall i :: 0 <= i < n ==> items[..n][i] == items[i];
    }
  }

  /** Every member under one of the keys is a number or a truth value. */
  predicate NumbersUnder(members: map<string, Json>, keys: set<string>) {
    forall key :: key in keys && key in members ==> members[key].Number? || members[key].Bool?
  }

  predicate BoolsUnder(members: map<string, Json>, keys: set<string>) {
    forall key :: key in keys && key in members ==> members[key].Bool?
  }

  predicate TextsUnder(members: map<string, Json>, keys: set<string>) {
    forall key :: key in keys && key in members ==> members[key].Text?
  }

  lemma UsagesAndRangesLoad(j: Json)
    ensures
      && Value(j, "usage_page", 0, AsU16).Ok? && Value(j, "usage_min", 0, AsU16).Ok?
      && Value(j, "usage_max", 0, AsU16).Ok? && Value(j, "logical_min", 0, AsI32).Ok?
      && Value(j, "logical_max", 0, AsI32).Ok? && Value(j, "physical_min", 0, AsI32).Ok?
      && Value(j, "physical_max", 0, AsI32).Ok?
      <==> j.Object? && NumbersUnder(j.members, USAGE_AND_RANGE_KEYS)
  {}

  lemma SizesUnitsAndFlagsLoad(j: Json)
    ensures
      && Value(j, "report_size", 0, AsU16).Ok? && Value(j, "report_count", 0, AsU16).Ok?
      && Value(j, "unit", 0, AsU32).Ok? && Value(j, "unit_exponent", 0, AsU32).Ok?
      && Value(j, "is_button", false, AsBool).Ok? && Value(j, "is_absolute", true, AsBool).Ok?
      && Value(j, "has_null", false, AsBool).Ok?
      <==> j.Object? && NumbersUnder(j.members, SIZE_AND_UNIT_KEYS) && BoolsUnder(j.members, FLAG_KEYS)
  {}

  ghost const USAGE_AND_RANGE_KEYS: set<string> := {
    "usage_page", "usage_min", "usage_max", "logical_min", "logical_max", "physical_min", "physical_max"
  }
  ghost const SIZE_AND_UNIT_KEYS: set<string> := {"report_size", "report_count", "unit", "unit_exponent"}
  ghost const FLAG_KEYS: set<string> := {"is_button", "is_absolute", "has_null"}

  /** A field is read from any object whose members under the known keys have the right types. */
  lemma FieldLoads(j: Json)
    ensures FieldFromJson(j).Ok?
       <==> && j.Object?
            && NumbersUnder(j.members, USAGE_AND_RANGE_KEYS) && NumbersUnder(j.members, SIZE_AND_UNIT_KEYS)
            && BoolsUnder(j.members, FLAG_KEYS)
  {
    UsagesAndRangesLoad(j);
    SizesUnitsAndFlagsLoad(j);
  }

  /** So is a report, but fields that are not an array are no fields, and each field must be readable. */
  lemma ReportLoads(j: Json)
    ensures ReportFromJson(j).Ok?
       <==> && j.Object?
            && NumbersUnder(j.members, {"report_id", "byte_length"})
            && (Contains(j, "fields") && j.members["fields"].Array? ==>
                  forall f :: f in j.members["fields"].items ==> FieldFromJson(f).Ok?)
  {
    if Contains(j, "fields") && j.members["fields"].Array? {
      ListReadsWhenItemsDo(j.members["fields"].items, FieldFromJson);
    }
  }

  predicate ReportsReadable(j: Json, key: string) {
    Contains(j, key) && j.members[key].Array? ==>
      forall r :: r in j.members[key].items ==> ReportFromJson(r).Ok?
  }

  lemma ReportsUnderLoads(j: Json, key: string)
    ensures ReportsUnder(j, key).Ok? <==> ReportsReadable(j, key)
  {
    if Contains(j, key) && j.members[key].Array? {
      ListReadsWhenItemsDo(j.members[key].items, ReportFromJson);
    }
  }

  /** A profile is read exactly from these trees; nothing is required to be present. */
  lemma ProfileLoads(j: Json)
    ensures ProfileFromJson(j).Ok?
       <==> && j.Object?
            && NumbersUnder(j.members, {"vendor_id", "product_id", "version_number", "usage_page", "usage"})
            && TextsUnder(j.members, {"manufacturer", "product", "serial_number"})
            && ReportsReadable(j, "input_reports") && ReportsReadable(j, "output_reports")
            && ReportsReadable(j, "feature_reports")
  {
    ReportsUnderLoads(j, "input_reports");
    ReportsUnderLoads(j, "output_reports");
    ReportsUnderLoads(j, "feature_reports");
  }

  method WriteReport(r: ReportInfo) returns (j: Json)
    ensures j == ReportToJson(r)
  {
    var fields: seq<Json> := [];
    for i := 0 to |r.fields|
      invariant |fields| == i
      invariant forall k :: 0 <= k < i ==> fields[k] == FieldToJson(r.fields[k])
    {
      fields := fields + [FieldToJson(r.fields[i])];
    }
    assert fields == WriteAll(r.fields, FieldToJson);
    j := Object(map[
                  "report_id" := Number(r.reportId),
                  "byte_length" := Number(r.byteLength),
                  "fields" := Array(fields)]);
  }

  method WriteReports(reports: seq<ReportInfo>) returns (j: Json)
    ensures j == ReportsToJson(reports)
  {
    var items: seq<Json> := [];
    for i := 0 to |reports|
      invariant |items| == i
      invariant forall k :: 0 <= k < i ==> items[k] == ReportToJson(reports[k])
    {
      var item := WriteReport(reports[i]);
      items := items + [item];
    }
    assert items == WriteAll(reports, ReportToJson);
    j := Array(items);
  }

  lemma ReadOneMore<T>(items: seq<Json>, i: nat, read: Json -> Reading<T>)
    requires i < |items| && ReadAll(items[..i], read).Ok?
    ensures
      var done := ReadAll(items[..i], read).value;
      match read(items[i])
      case Ok(x) => ReadAll(items[..i + 1], read) == Ok(done + [x])
      case Err(e) => ReadAll(items, read) == Err(e)
  {
    TakeNext(items, i);
    if read(items[i]).Err? {
      FirstErrorStays(items, i + 1, read);
    }
  }

  method ReadReport(j: Json) returns (r: Reading<ReportInfo>)
    ensures r == ReportFromJson(j)
  {
    var reportId :- Value(j, "report_id", 0, AsByte);
    var byteLength :- Value(j, "byte_length", 0, AsU16);
    var fields: seq<FieldCaps> := [];
    if Contains(j, "fields") && j.members["fields"].Array? {
      var items := j.members["fields"].items;
      for i := 0 to |items|
        invariant ReadAll(items[..i], FieldFromJson) == Ok(fields)
      {
        ReadOneMore(items, i, FieldFromJson);
        var field :- FieldFromJson(items[i]);
        fields := fields + [field];
      }
      assert items[..|items|] == items;
    }
    r := Ok(ReportInfo(reportId, byteLength, fields));
  }

  method ReadReports(j: Json) returns (r: Reading<seq<ReportInfo>>)
    ensures r == ReportsFromJson(j)
  {
    var reports: seq<ReportInfo> := [];
    if j.Array? {
      var items := j.items;
      for i := 0 to |items|
        invariant ReadAll(items[..i], ReportFromJson) == Ok(reports)
      {
        ReadOneMore(items, i, ReportFromJson);
        var report :- ReadReport(items[i]);
        reports := reports + [report];
      }
      assert items[..|items|] == items;
    }
    r := Ok(reports);
  }

  method Save(p: DeviceProfile) returns (j: Json)
    ensures j == ProfileToJson(p)
  {
    var inputs := WriteReports(p.inputReports);
    var outputs := WriteReports(p.outputReports);
    var features := WriteReports(p.featureReports);
    var hex := BytesToHex(p.reportDescriptor);
    var m: map<string, Json> := map[];
    m := m["vhid_profile_version" := Number(PROFILE_VERSION)];
    m := m["vendor_id" := Number(p.vendorId)];
    m := m["product_id" := Number(p.productId)];
    m := m["version_number" := Number(p.versionNumber)];
    m := m["manufacturer" := Text(p.manufacturer)];
    m := m["product" := Text(p.product)];
    m := m["serial_number" := Text(p.serialNumber)];
    m := m["usage_page" := Number(p.usagePage)];
    m := m["usage" := Number(p.usage)];
    m := m["input_reports" := inputs];
    m := m["output_reports" := outputs];
    m := m["feature_reports" := features];
    m := m["report_descriptor" := Text(hex)];
    j := Object(m);
  }

  /** `file` is the tree the file parses to, or nothing when it does not open or does not parse. */
  method Load(file: Option<Json>) returns (r: Reading<Option<DeviceProfile>>)
    ensures file.None? ==> r == Ok(None)
    ensures file.Some? ==>
      match ProfileFromJson(file.value)
      case Ok(p) => r == Ok(Some(p))
      case Err(e) => r == Err(e)
  {
    if file.None? {
      return Ok(None);
    }
    var j := file.value;
    var vendorId :- Value(j, "vendor_id", 0, AsU16);
    var productId :- Value(j, "product_id", 0, AsU16);
    var versionNumber :- Value(j, "version_number", 0, AsU16);
    var manufacturer :- Value(j, "manufacturer", "", AsText);
    var product :- Value(j, "product", "", AsText);
    var serialNumber :- Value(j, "serial_number", "", AsText);
    var usagePage :- Value(j, "usage_page", 0, AsU16);
    var usage :- Value(j, "usage", 0, AsU16);
    var p := DeviceProfile(vendorId, productId, versionNumber, manufacturer, product, serialNumber,
                           usagePage, usage, [], [], [], []);
    if Contains(j, "input_reports") {
      var inputs :- ReadReports(j.members["input_reports"]);
      p := p.(inputReports := inputs);
    }
    if Contains(j, "output_reports") {
      var outputs :- ReadReports(j.members["output_reports"]);
      p := p.(outputReports := outputs);
    }
    if Contains(j, "feature_reports") {
      var features :- ReadReports(j.members["feature_reports"]);
      p := p.(featureReports := features);
    }
    if Contains(j, "report_descriptor") && j.members["report_descriptor"].Text? {
      var bytes := HexToBytes(j.members["report_descriptor"].text);
      p := p.(reportDescriptor := bytes);
    }
    r := Ok(Some(p));
  }
}
