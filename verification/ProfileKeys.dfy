/** The members of a saved profile by name: which key holds what, what a missing one stands for,
    and which exception a bad one raises. device_profile.cpp, lines 36-159. */
module ProfileKeys {
  import opened Core
  import opened Profiles
  import opened HexCodec
  import opened ProfileJson

  // ---------- single members ----------

  /** The number under a key; truth values count as 0 and 1, and a missing member as 0. */
  function NumberAt(m: map<string, Json>, key: string): int {
    if key !in m then 0
    else match m[key]
      case Number(n) => n
      case Bool(b) => if b then 1 else 0
      case _ => 0
  }

  function FlagAt(m: map<string, Json>, key: string, missing: bool): bool {
    if key in m && m[key].Bool? then m[key].flag else missing
  }

  function TextAt(m: map<string, Json>, key: string): string {
    if key in m && m[key].Text? then m[key].text else ""
  }

  /** `v` is `n` narrowed to a type of so many values. */
  predicate Narrowed(v: int, n: int, values: int)
    requires values > 0
  {
    (v - n) % values == 0
  }

  /** The exception of a member lookup in `j`. */
  function LookupError(j: Json): JsonError {
    if j.Object? then WrongType else NotAnObject
  }

  lemma ByteAt(j: Json, key: string)
    ensures var r := Value(j, key, 0, AsByte);
            if r.Ok? then j.Object? && Narrowed(r.value, NumberAt(j.members, key), 0x100)
            else r.error == LookupError(j)
  {}

  lemma U16At(j: Json, key: string)
    ensures var r := Value(j, key, 0, AsU16);
            if r.Ok? then j.Object? && Narrowed(r.value, NumberAt(j.members, key), 0x1_0000)
            else r.error == LookupError(j)
  {}

  lemma U32At(j: Json, key: string)
    ensures var r := Value(j, key, 0, AsU32);
            if r.Ok? then j.Object? && Narrowed(r.value, NumberAt(j.members, key), 0x1_0000_0000)
            else r.error == LookupError(j)
  {}

  lemma I32At(j: Json, key: string)
    ensures var r := Value(j, key, 0, AsI32);
            if r.Ok? then j.Object? && Narrowed(r.value, NumberAt(j.members, key), 0x1_0000_0000)
            else r.error == LookupError(j)
  {}

  lemma BoolAt(j: Json, key: string, missing: bool)
    ensures var r := Value(j, key, missing, AsBool);
            if r.Ok? then j.Object? && r.value == FlagAt(j.members, key, missing) else r.error == LookupError(j)
  {}

  lemma StringAt(j: Json, key: string)
    ensures var r := Value(j, key, "", AsText);
            if r.Ok? then j.Object? && r.value == TextAt(j.members, key) else r.error == LookupError(j)
  {}

  // ---------- fields ----------

  predicate FieldNumbers(f: FieldCaps, m: map<string, Json>) {
    && Narrowed(f.usagePage, NumberAt(m, "usage_page"), 0x1_0000)
    && Narrowed(f.usageMin, NumberAt(m, "usage_min"), 0x1_0000)
    && Narrowed(f.usageMax, NumberAt(m, "usage_max"), 0x1_0000)
    && Narrowed(f.logicalMin, NumberAt(m, "logical_min"), 0x1_0000_0000)
    && Narrowed(f.logicalMax, NumberAt(m, "logical_max"), 0x1_0000_0000)
    && Narrowed(f.physicalMin, NumberAt(m, "physical_min"), 0x1_0000_0000)
    && Narrowed(f.physicalMax, NumberAt(m, "physical_max"), 0x1_0000_0000)
    && Narrowed(f.reportSize, NumberAt(m, "report_size"), 0x1_0000)
    && Narrowed(f.reportCount, NumberAt(m, "report_count"), 0x1_0000)
    && Narrowed(f.unit, NumberAt(m, "unit"), 0x1_0000_0000)
    && Narrowed(f.unitExponent, NumberAt(m, "unit_exponent"), 0x1_0000_0000)
  }

  /** A field that does not say whether it is absolute is. */
  predicate FieldFlags(f: FieldCaps, m: map<string, Json>) {
    && f.isButton == FlagAt(m, "is_button", false)
    && f.isAbsolute == FlagAt(m, "is_absolute", true)
    && f.hasNull == FlagAt(m, "has_null", false)
  }

  /** What a tree is read as, member by member: a missing number is 0, a missing flag false except
      that a field is absolute, and numbers wrap. */
  lemma FieldByKeys(j: Json)
    ensures var r := FieldFromJson(j);
            if r.Ok? then j.Object? && FieldNumbers(r.value, j.members) && FieldFlags(r.value, j.members)
            else r.error == LookupError(j)
  {
    U16At(j, "usage_page");
    U16At(j, "usage_min");
    U16At(j, "usage_max");
    I32At(j, "logical_min");
    I32At(j, "logical_max");
    I32At(j, "physical_min");
    I32At(j, "physical_max");
    U16At(j, "report_size");
    U16At(j, "report_count");
    U32At(j, "unit");
    U32At(j, "unit_exponent");
    BoolAt(j, "is_button", false);
    BoolAt(j, "is_absolute", true);
    BoolAt(j, "has_null", false);
  }

  // ---------- lists ----------

  /** Reading stopped at item `k` with that exception, every earlier item being readable. */
  predicate FirstBad<T(==)>(items: seq<Json>, read: Json -> Reading<T>, k: int, e: JsonError) {
    && 0 <= k < |items| && read(items[k]) == Err(e)
    && forall i :: 0 <= i < k ==> read(items[i]).Ok?
  }

  ghost predicate StopsAtBad<T>(items: seq<Json>, read: Json -> Reading<T>, e: JsonError) {
    exists k :: FirstBad(items, read, k, e)
  }

  lemma {:induction false} FirstBadItem<T>(items: seq<Json>, read: Json -> Reading<T>)
    requires ReadAll(items, read).Err?
    ensures StopsAtBad(items, read, ReadAll(items, read).error)
  {
    var n := |items| - 1;
    if ReadAll(items[..n], read).Err? {
      FirstBadItem(items[..n], read);
      var k :| FirstBad(items[..n], read, k, ReadAll(items, read).error);
      assert FirstBad(items, read, k, ReadAll(items, read).error);
    } else {
      ListReadsWhenItemsDo(items[..n], read);
      assert forall i :: 0 <= i < n ==> items[..n][i] == items[i];
      assert FirstBad(items, read, n, ReadAll(items, read).error);
    }
  }

  /** The items of an array under a key; a member that is missing or no array has none. */
  function ItemsAt(m: map<string, Json>, key: string): seq<Json> {
    if key in m && m[key].Array? then m[key].items else []
  }

  /** Each item was read, in order. */
  predicate ReadFrom<T(==)>(xs: seq<T>, items: seq<Json>, read: Json -> Reading<T>) {
    |xs| == |items| && forall i :: 0 <= i < |items| ==> read(items[i]) == Ok(xs[i])
  }

  // ---------- reports ----------

  predicate ReportMembers(r: ReportInfo, m: map<string, Json>) {
    && Narrowed(r.reportId, NumberAt(m, "report_id"), 0x100)
    && Narrowed(r.byteLength, NumberAt(m, "byte_length"), 0x1_0000)
    && ReadFrom(r.fields, ItemsAt(m, "fields"), FieldFromJson)
  }

  /** The exception of a tree that is no report: its own members come first, then the first bad field. */
  ghost predicate ReportError(j: Json, e: JsonError) {
    if !j.Object? then e == NotAnObject
    else if !NumbersUnder(j.members, {"report_id", "byte_length"}) then e == WrongType
    else StopsAtBad(ItemsAt(j.members, "fields"), FieldFromJson, e)
  }

  lemma ReportNumbersRead(j: Json)
    ensures Value(j, "report_id", 0, AsByte).Ok? && Value(j, "byte_length", 0, AsU16).Ok?
       <==> j.Object? && NumbersUnder(j.members, {"report_id", "byte_length"})
  {}

  lemma ReportByKeys(j: Json)
    ensures var r := ReportFromJson(j);
            if r.Ok? then j.Object? && ReportMembers(r.value, j.members) else ReportError(j, r.error)
  {
    ByteAt(j, "report_id");
    U16At(j, "byte_length");
    ReportNumbersRead(j);
    if j.Object? {
      var items := ItemsAt(j.members, "fields");
      ListReadsWhenItemsDo(items, FieldFromJson);
      if ReadAll(items, FieldFromJson).Err? {
        FirstBadItem(items, FieldFromJson);
      }
    }
  }

  // ---------- profiles ----------

  predicate ProfileMembers(p: DeviceProfile, m: map<string, Json>) {
    && Narrowed(p.vendorId, NumberAt(m, "vendor_id"), 0x1_0000)
    && Narrowed(p.productId, NumberAt(m, "product_id"), 0x1_0000)
    && Narrowed(p.versionNumber, NumberAt(m, "version_number"), 0x1_0000)
    && p.manufacturer == TextAt(m, "manufacturer")
    && p.product == TextAt(m, "product")
    && p.serialNumber == TextAt(m, "serial_number")
    && Narrowed(p.usagePage, NumberAt(m, "usage_page"), 0x1_0000)
    && Narrowed(p.usage, NumberAt(m, "usage"), 0x1_0000)
  }

  predicate ProfileLists(p: DeviceProfile, m: map<string, Json>) {
    && ReadFrom(p.inputReports, ItemsAt(m, "input_reports"), ReportFromJson)
    && ReadFrom(p.outputReports, ItemsAt(m, "output_reports"), ReportFromJson)
    && ReadFrom(p.featureReports, ItemsAt(m, "feature_reports"), ReportFromJson)
    && p.reportDescriptor == FromHex(TextAt(m, "report_descriptor"))
  }

  ghost predicate MembersRead(j: Json) {
    && j.Object?
    && NumbersUnder(j.members, {"vendor_id", "product_id", "version_number", "usage_page", "usage"})
    && TextsUnder(j.members, {"manufacturer", "product", "serial_number"})
  }

  /** The exception of a tree that is no profile: plain members, then inputs, outputs and features. */
  ghost predicate ProfileError(j: Json, e: JsonError) {
    if !j.Object? then e == NotAnObject
    else if !MembersRead(j) then e == WrongType
    else if !ReportsReadable(j, "input_reports") then
      StopsAtBad(ItemsAt(j.members, "input_reports"), ReportFromJson, e)
    else if !ReportsReadable(j, "output_reports") then
      StopsAtBad(ItemsAt(j.members, "output_reports"), ReportFromJson, e)
    else StopsAtBad(ItemsAt(j.members, "feature_reports"), ReportFromJson, e)
  }

  lemma ReportsAt(j: Json, key: string)
    requires j.Object?
    ensures var r := ReportsUnder(j, key);
            && (r.Ok? <==> ReportsReadable(j, key))
            && if r.Ok? then ReadFrom(r.value, ItemsAt(j.members, key), ReportFromJson)
               else StopsAtBad(ItemsAt(j.members, key), ReportFromJson, r.error)
  {
    var items := ItemsAt(j.members, key);
    ReportsUnderLoads(j, key);
    ListReadsWhenItemsDo(items, ReportFromJson);
    if ReadAll(items, ReportFromJson).Err? {
      FirstBadItem(items, ReportFromJson);
    }
  }

  lemma PlainMembersRead(j: Json)
    ensures && Value(j, "vendor_id", 0, AsU16).Ok? && Value(j, "product_id", 0, AsU16).Ok?
            && Value(j, "version_number", 0, AsU16).Ok? && Value(j, "manufacturer", "", AsText).Ok?
            && Value(j, "product", "", AsText).Ok? && Value(j, "serial_number", "", AsText).Ok?
            && Value(j, "usage_page", 0, AsU16).Ok? && Value(j, "usage", 0, AsU16).Ok?
            <==> MembersRead(j)
  {}

  lemma PlainMembersAt(j: Json)
    ensures ProfileFromJson(j).Ok? ==> MembersRead(j) && ProfileMembers(ProfileFromJson(j).value, j.members)
    ensures !MembersRead(j) ==> ProfileFromJson(j) == Err(LookupError(j))
  {
    PlainMembersRead(j);
    U16At(j, "vendor_id");
    U16At(j, "product_id");
    U16At(j, "version_number");
    StringAt(j, "manufacturer");
    StringAt(j, "product");
    StringAt(j, "serial_number");
    U16At(j, "usage_page");
    U16At(j, "usage");
  }

  lemma DescriptorAt(j: Json)
    requires j.Object?
    ensures DescriptorUnder(j, "report_descriptor") == FromHex(TextAt(j.members, "report_descriptor"))
  {}

  lemma ListsAt(j: Json)
    requires MembersRead(j)
    ensures var r := ProfileFromJson(j);
            if r.Ok? then ProfileLists(r.value, j.members) else ProfileError(j, r.error)
  {
    PlainMembersRead(j);
    ReportsAt(j, "input_reports");
    ReportsAt(j, "output_reports");
    ReportsAt(j, "feature_reports");
    DescriptorAt(j);
  }

  /** A profile by its keys, and the exception where there is none. */
  lemma {:induction false} ProfileByKeys(j: Json)
    ensures var r := ProfileFromJson(j);
            if r.Ok? then j.Object? && ProfileMembers(r.value, j.members) && ProfileLists(r.value, j.members)
            else ProfileError(j, r.error)
  {
    PlainMembersAt(j);
    if MembersRead(j) {
      ListsAt(j);
    }
  }

  // ---------- what is written ----------

  /** A saved field holds these fourteen members and no others. */
  lemma FieldWritten(f: FieldCaps)
    ensures var m := FieldToJson(f).members;
            && m.Keys == USAGE_AND_RANGE_KEYS + SIZE_AND_UNIT_KEYS + FLAG_KEYS
            && FieldNumbers(f, m) && FieldFlags(f, m)
  {
    FieldRoundTrip(f);
    FieldByKeys(FieldToJson(f));
  }

  lemma ReportWritten(r: ReportInfo)
    ensures var m := ReportToJson(r).members;
            m.Keys == {"report_id", "byte_length", "fields"} && ReportMembers(r, m)
  {
    ReportRoundTrip(r);
    ReportByKeys(ReportToJson(r));
  }

  lemma KeysWritten(p: DeviceProfile)
    ensures var m := ProfileToJson(p).members;
            m.Keys == KNOWN_KEYS + {"vhid_profile_version"} && m["vhid_profile_version"] == Number(1)
  {}

  lemma ProfileWritten(p: DeviceProfile)
    ensures var m := ProfileToJson(p).members;
            && m.Keys == KNOWN_KEYS + {"vhid_profile_version"} && m["vhid_profile_version"] == Number(1)
            && ProfileMembers(p, m) && ProfileLists(p, m)
  {
    KeysWritten(p);
    ProfileRoundTrip(p);
    ProfileByKeys(ProfileToJson(p));
  }
}
