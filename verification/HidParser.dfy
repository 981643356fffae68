/** A reference report-descriptor parser, after HID 1.11 sections 6.2.2.4 to
    6.2.2.8. It shares no definition with the builder.
    Physical range, unit and string/designator items do not reach a `Field`. */
module HidParser {
  import opened Core
  import opened Profiles
  import opened HidItems

  datatype UsageRange = UsageRange(first: nat, last: nat)

  /** An open collection: its kind and the usage it was opened with. */
  datatype Collection = Collection(collectionKind: nat, usagePage: nat, usages: seq<UsageRange>)

  datatype Field = Field(
    kind: Kind, path: seq<Collection>, reportId: nat,
    usagePage: nat, usages: seq<UsageRange>,
    logicalMin: int, logicalMax: int,
    reportSize: nat, reportCount: nat,
    constant: bool, variable: bool, relative: bool, nullState: bool)

  /** Global items persist until changed (6.2.2.7). The two extents are kept as bytes. */
  datatype Globals = Globals(
    usagePage: nat, logicalMin: seq<Byte>, logicalMax: seq<Byte>,
    reportSize: nat, reportId: nat, reportCount: nat)

  /** Local items are dropped at every main item (6.2.2.8). */
  datatype Locals = Locals(usages: seq<UsageRange>, pendingMin: Option<nat>)

  datatype Parser = Parser(
    globals: Globals, saved: seq<Globals>, locals: Locals,
    path: seq<Collection>, fields: seq<Field>, ok: bool)

  const NO_LOCALS: Locals := Locals([], None)
  const START: Parser := Parser(Globals(0, [], [], 0, 0, 0), [], NO_LOCALS, [], [], true)

  function Bit(v: nat, weight: nat): bool
    requires weight > 0
  {
    v / weight % 2 == 1
  }

  /** 6.2.2.7: extents are signed unless the minimum is non-negative, in which
      case the maximum is read without a sign. */
  function UpperExtent(lower: int, upper: seq<Byte>): int {
    if lower >= 0 then UnsignedOf(upper) else SignedOf(upper)
  }

  function FieldAt(p: Parser, kind: Kind, flags: nat): Field {
    var g := p.globals;
    var lower := SignedOf(g.logicalMin);
    Field(kind, p.path, g.reportId, g.usagePage, p.locals.usages,
          lower, UpperExtent(lower, g.logicalMax), g.reportSize, g.reportCount,
          Bit(flags, 0x01), Bit(flags, 0x02), Bit(flags, 0x04), Bit(flags, 0x40))
  }

  function AddField(p: Parser, kind: Kind, flags: nat): Parser {
    p.(fields := p.fields + [FieldAt(p, kind, flags)], locals := NO_LOCALS)
  }

  function MainItem(p: Parser, tag: nat, v: nat): Parser {
    if tag == 0x8 then AddField(p, Input, v)
    else if tag == 0x9 then AddField(p, Output, v)
    else if tag == 0xB then AddField(p, Feature, v)
    else if tag == 0xA then
      p.(path := p.path + [Collection(v, p.globals.usagePage, p.locals.usages)], locals := NO_LOCALS)
    else if tag == 0xC then
      if p.path == [] then p.(ok := false) else p.(path := p.path[..|p.path| - 1], locals := NO_LOCALS)
    else p.(locals := NO_LOCALS)
  }

  function GlobalItem(p: Parser, tag: nat, data: seq<Byte>): Parser {
    var v := UnsignedOf(data);
    if tag == 0x0 then p.(globals := p.globals.(usagePage := v))
    else if tag == 0x1 then p.(globals := p.globals.(logicalMin := data))
    else if tag == 0x2 then p.(globals := p.globals.(logicalMax := data))
    else if tag == 0x7 then p.(globals := p.globals.(reportSize := v))
    else if tag == 0x8 then
      // Report ID 0 is reserved.
      p.(globals := p.globals.(reportId := v), ok := p.ok && 1 <= v <= 255)
    else if tag == 0x9 then p.(globals := p.globals.(reportCount := v))
    else if tag == 0xA then p.(saved := p.saved + [p.globals])
    else if tag == 0xB then
      if p.saved == [] then p.(ok := false)
      else p.(globals := p.saved[|p.saved| - 1], saved := p.saved[..|p.saved| - 1])
    else p
  }

  function LocalItem(p: Parser, tag: nat, v: nat): Parser {
    if tag == 0x0 then p.(locals := p.locals.(usages := p.locals.usages + [UsageRange(v, v)]))
    else if tag == 0x1 then p.(locals := p.locals.(pendingMin := Some(v)))
    else if tag == 0x2 then
      if p.locals.pendingMin.None? then p.(ok := false)
      else p.(locals := Locals(p.locals.usages + [UsageRange(p.locals.pendingMin.value, v)], None))
    else p
  }

  function Step(p: Parser, item: Item): Parser {
    match item
    case Long(_, _) => p
    case Short(typ, tag, data) =>
      if typ == 0 then MainItem(p, tag, UnsignedOf(data))
      else if typ == 1 then GlobalItem(p, tag, data)
      else if typ == 2 then LocalItem(p, tag, UnsignedOf(data))
      else p
  }

  function Run(p: Parser, items: seq<Item>): Parser
    decreases |items|
  {
    if items == [] then p else Run(Step(p, items[0]), items[1..])
  }

  /** The fields of a descriptor, or None if it is malformed or leaves a collection open. */
  function Parse(bytes: seq<Byte>): Option<seq<Field>> {
    var items := ReadItems(bytes);
    if items.None? then None
    else
      var p := Run(START, items.value);
      if p.ok && p.path == [] then Some(p.fields) else None
  }

  predicate FieldsHaveIds(fields: seq<Field>, some: bool) {
    forall i :: 0 <= i < |fields| ==> (fields[i].reportId != 0) == some
  }

  /** 6.2.2.7: once a Report ID is used, every report has one. A descriptor whose fields are
      partly without an id is one that the parser reads, but that a strict host may refuse. */
  predicate IdsConsistent(fields: seq<Field>) {
    FieldsHaveIds(fields, true) || FieldsHaveIds(fields, false)
  }
}
