/** HID short items: the encoder `emit` of descriptor_builder.cpp, and the item
    reader of HID 1.11, sections 6.2.2.2 (short items) and 6.2.2.3 (long items). */
module HidItems {
  import opened Core

  datatype ItemType = Main | Global | Local {
    function Code(): nat {
      match this
      case Main => 0
      case Global => 1
      case Local => 2
    }
  }

  type Nibble = x: int | 0 <= x < 16

  /** One call of `emit`. */
  datatype Emission = Emission(tag: Nibble, typ: ItemType, data: I64, force: bool)

  // ---------- the encoder ----------

  function Width(data: I64, force: bool): (w: nat) {
    if data == 0 && !force then 0
    else if -128 <= data <= 255 then 1
    else if -32768 <= data <= 65535 then 2
    else 4
  }

  function SizeBits(width: nat): nat {
    if width == 4 then 3 else width
  }

  function LittleEndian(u: nat, n: nat): (bs: seq<Byte>)
    ensures |bs| == n
  {
    if n == 0 then [] else [u % 256] + LittleEndian(u / 256, n - 1)
  }

  /** The data bytes of an item: the value as a 64-bit word, low bytes first. */
  function Payload(data: I64, force: bool): seq<Byte> {
    LittleEndian(data % 0x1_0000_0000_0000_0000, Width(data, force))
  }

  function ItemBytes(e: Emission): seq<Byte> {
    [e.tag * 16 + e.typ.Code() * 4 + SizeBits(Width(e.data, e.force))] + Payload(e.data, e.force)
  }

  function EmitAll(es: seq<Emission>): seq<Byte> {
    if es == [] then [] else ItemBytes(es[0]) + EmitAll(es[1..])
  }

  lemma LittleEndianSplit(u: nat, n: nat)
    ensures LittleEndian(u, n + 1) == LittleEndian(u, n) + [Shifted(u, n) % 256]
  {
    if n > 0 {
      LittleEndianSplit(u / 256, n - 1);
    }
  }

  /** `u >> (8 * i)` */
  function Shifted(u: nat, i: nat): nat {
    if i == 0 then u else Shifted(u / 256, i - 1)
  }

  lemma {:induction false} ShiftedStep(u: nat, i: nat)
    ensures Shifted(u, i) / 256 == Shifted(u, i + 1)
  {
    if i > 0 {
      ShiftedStep(u / 256, i - 1);
    }
  }

  lemma {:induction false} EmitAllConcat(a: seq<Emission>, b: seq<Emission>)
    ensures EmitAll(a + b) == EmitAll(a) + EmitAll(b)
  {
    if a == [] {
      assert a + b == b;
    } else {
      assert (a + b)[0] == a[0] && (a + b)[1..] == a[1..] + b;
      EmitAllConcat(a[1..], b);
    }
  }

  lemma EmitOneMore(es: seq<Emission>, e: Emission)
    ensures EmitAll(es + [e]) == EmitAll(es) + ItemBytes(e)
  {
    EmitAllConcat(es, [e]);
    assert EmitAll([e]) == ItemBytes(e) + EmitAll([]);
  }

  /** The `out` vector of the builder, with the items it holds as ghost history. */
  class ItemWriter {
    var bytes: seq<Byte>
    ghost var items: seq<Emission>

    ghost predicate Valid()
      reads this
    {
      bytes == EmitAll(items)
    }

    constructor ()
      ensures Valid() && items == []
    {
      bytes, items := [], [];
    }

    method PushBack(b: Byte)
      modifies this`bytes
      ensures bytes == old(bytes) + [b]
    {
      bytes := bytes + [b];
    }

    method PushLowBytes(u: nat, n: nat)
      modifies this`bytes
      ensures bytes == old(bytes) + LittleEndian(u, n)
    {
      var rest := u;
      for i := 0 to n
        invariant bytes == old(bytes) + LittleEndian(u, i)
        invariant rest == Shifted(u, i)
      {
        LittleEndianSplit(u, i);
        ShiftedStep(u, i);
        PushBack(rest % 256);
        rest := rest / 256;
      }
    }

    method Emit(tag: Nibble, typ: ItemType, data: I64, force: bool)
      requires Valid()
      modifies this
      ensures Valid()
      ensures items == old(items) + [Emission(tag, typ, data, force)]
    {
      var sizeBits, dataBytes := 0, 0;
      if data == 0 && !force {
        sizeBits, dataBytes := 0, 0;
      } else if -128 <= data <= 255 {
        sizeBits, dataBytes := 1, 1;
      } else if -32768 <= data <= 65535 {
        sizeBits, dataBytes := 2, 2;
      } else {
        sizeBits, dataBytes := 3, 4;
      }
      PushItem(Emission(tag, typ, data, force), sizeBits, dataBytes);
    }

    method PushItem(e: Emission, sizeBits: nat, dataBytes: nat)
      requires Valid()
      requires dataBytes == Width(e.data, e.force) && sizeBits == SizeBits(dataBytes)
      modifies this
      ensures Valid() && items == old(items) + [e]
    {
      var prefix := e.tag * 16 + e.typ.Code() * 4 + sizeBits;
      PushBack(prefix);
      PushLowBytes(e.data % 0x1_0000_0000_0000_0000, dataBytes);
      AppendAssociates(old(bytes), [prefix], Payload(e.data, e.force));
      EmitOneMore(items, e);
      items := items + [e];
    }
  }

  // ---------- reading values back (HID 1.11, section 5.8) ----------

  function UnsignedOf(bs: seq<Byte>): nat {
    if bs == [] then 0 else bs[0] + 256 * UnsignedOf(bs[1..])
  }

  /** 256 to the given power. */
  function Modulus(width: nat): (m: nat)
    ensures m >= 1
  {
    if width == 0 then 1 else 256 * Modulus(width - 1)
  }

  function SignedOf(bs: seq<Byte>): int {
    var u, m := UnsignedOf(bs), Modulus(|bs|);
    if 2 * u >= m && bs != [] then u - m else u
  }

  /** The values that the chosen width cannot tell from a negative one. */
  predicate AmbiguousSign(v: int) {
    128 <= v <= 255 || 32768 <= v <= 65535
  }

  lemma ModulusValues()
    ensures Modulus(0) == 1 && Modulus(1) == 0x100 && Modulus(2) == 0x1_0000 && Modulus(4) == 0x1_0000_0000
  {
    assert Modulus(4) == 256 * Modulus(3) && Modulus(3) == 256 * Modulus(2);
  }

  lemma {:induction false} LittleEndianValue(u: nat, n: nat)
    requires n <= 4
    ensures UnsignedOf(LittleEndian(u, n)) == u % Modulus(n)
  {
    if n > 0 {
      LittleEndianValue(u / 256, n - 1);
      assert LittleEndian(u, n)[1..] == LittleEndian(u / 256, n - 1);
      ModuloStep(u, n - 1);
    }
  }

  lemma ModuloStep(u: nat, n: nat)
    requires n <= 3
    ensures u % Modulus(n + 1) == u % 256 + 256 * ((u / 256) % Modulus(n))
  {
    var q := u / 256;
    if n == 0 {
    } else if n == 1 {
      assert Modulus(1) == 0x100 && Modulus(2) == 0x1_0000;
      RemainderIs(u, 0x1_0000, q / 0x100, u % 256 + 256 * (q % 0x100));
    } else if n == 2 {
      assert Modulus(2) == 0x1_0000 && Modulus(3) == 0x100_0000;
      RemainderIs(u, 0x100_0000, q / 0x1_0000, u % 256 + 256 * (q % 0x1_0000));
    } else {
      assert Modulus(3) == 0x100_0000 && Modulus(4) == 0x1_0000_0000 by { ModulusValues(); }
      RemainderIs(u, 0x1_0000_0000, q / 0x100_0000, u % 256 + 256 * (q % 0x100_0000));
    }
  }

  /** What a payload reads back as, without a sign: the value modulo 256 to the width. */
  lemma {:induction false} PayloadValue(data: I64, force: bool)
    ensures UnsignedOf(Payload(data, force)) == data % Modulus(Width(data, force))
    ensures |Payload(data, force)| == Width(data, force)
  {
    var w, u := Width(data, force), data % 0x1_0000_0000_0000_0000;
    LittleEndianValue(u, w);
    ModulusValues();
    LowBits(data, w);
  }

  lemma {:induction false} LowBits(x: int, width: nat)
    requires width in {0, 1, 2, 4}
    ensures (x % 0x1_0000_0000_0000_0000) % Modulus(width) == x % Modulus(width)
  {
    ModulusValues();
    var q, u := x / 0x1_0000_0000_0000_0000, x % 0x1_0000_0000_0000_0000;
    if width == 1 {
      RemainderIs(x, 0x100, q * 0x100_0000_0000_0000 + u / 0x100, u % 0x100);
    } else if width == 2 {
      RemainderIs(x, 0x1_0000, q * 0x1_0000_0000_0000 + u / 0x1_0000, u % 0x1_0000);
    } else if width == 4 {
      RemainderIs(x, 0x1_0000_0000, q * 0x1_0000_0000 + u / 0x1_0000_0000, u % 0x1_0000_0000);
    }
  }

  lemma {:induction false} RemainderIs(x: int, m: int, q: int, r: int)
    requires 0 <= r < m && x == q * m + r
    ensures x % m == r
  {
    var d := x / m - q;
    assert d >= 1 ==> d * m >= m;
    assert d <= -1 ==> d * m <= -m;
    assert x % m == r - d * m;
  }

  /** A sign-extending reader gets a value back exactly outside the two ambiguous
      bands (and outside the 64-bit values that four bytes cannot hold). */
  lemma {:induction false} SignedRoundTrip(data: I64, force: bool)
    ensures SignedOf(Payload(data, force)) == data
       <==> !AmbiguousSign(data) && -0x8000_0000 <= data < 0x8000_0000
  {
    PayloadValue(data, force);
    var w := Width(data, force);
    ModulusValues();
    if w == 1 {
      RemainderIs(data, 0x100, if data < 0 then -1 else 0, if data < 0 then data + 0x100 else data);
    } else if w == 2 {
      RemainderIs(data, 0x1_0000, if data < 0 then -1 else 0, if data < 0 then data + 0x1_0000 else data);
    } else if w == 4 && -0x8000_0000 <= data < 0x8000_0000 {
      RemainderIs(data, 0x1_0000_0000, if data < 0 then -1 else 0, if data < 0 then data + 0x1_0000_0000 else data);
    }
  }

  /** An unsigned reader gets back exactly the non-negative 32-bit values. */
  lemma {:induction false} UnsignedRoundTrip(data: I64, force: bool)
    ensures UnsignedOf(Payload(data, force)) == data <==> 0 <= data < 0x1_0000_0000
  {
    PayloadValue(data, force);
    ModulusValues();
  }

  lemma {:induction false} UnsignedInjective(a: seq<Byte>, b: seq<Byte>)
    requires |a| == |b| && UnsignedOf(a) == UnsignedOf(b)
    ensures a == b
  {
    if a != [] {
      UnsignedInjective(a[1..], b[1..]);
      assert a == [a[0]] + a[1..] && b == [b[0]] + b[1..];
    }
  }

  /** Two values share their bytes exactly when they fall in the same size class
      and agree modulo 256 to that width. */
  lemma {:induction false} SharedBytes(tag: Nibble, typ: ItemType, a: I64, b: I64, force: bool)
    ensures ItemBytes(Emission(tag, typ, a, force)) == ItemBytes(Emission(tag, typ, b, force))
       <==> var w := Width(a, force); w == Width(b, force) && a % Modulus(w) == b % Modulus(w)
  {
    PayloadValue(a, force);
    PayloadValue(b, force);
    var ia, ib := ItemBytes(Emission(tag, typ, a, force)), ItemBytes(Emission(tag, typ, b, force));
    assert ia[1..] == Payload(a, force) && ib[1..] == Payload(b, force);
    if Width(a, force) == Width(b, force) && UnsignedOf(Payload(a, force)) == UnsignedOf(Payload(b, force)) {
      UnsignedInjective(Payload(a, force), Payload(b, force));
    }
  }

  // ---------- the item reader ----------

  datatype Item =
    | Short(typ: nat, tag: nat, data: seq<Byte>)
    | Long(longTag: Byte, longData: seq<Byte>)

  function ReadItem(bytes: seq<Byte>): (r: Option<(Item, seq<Byte>)>)
    requires bytes != []
    ensures r.Some? ==> |r.value.1| < |bytes|
  {
    if bytes[0] == 0xFE then
      if |bytes| < 3 then None
      else
        var end: int := 3 + bytes[1] as int;
        if |bytes| < end then None else Some((Long(bytes[2], bytes[3..end]), bytes[end..]))
    else
      var size := if bytes[0] % 4 == 3 then 4 else bytes[0] % 4;
      if |bytes| < 1 + size then None
      else Some((Short(bytes[0] / 4 % 4, bytes[0] / 16, bytes[1..1 + size]), bytes[1 + size..]))
  }

  function ReadItems(bytes: seq<Byte>): Option<seq<Item>>
    decreases |bytes|
  {
    if bytes == [] then Some([])
    else
      var first := ReadItem(bytes);
      if first.None? then None else After([first.value.0], ReadItems(first.value.1))
  }

  /** The given items in front of what the rest of the stream reads as. */
  function After(items: seq<Item>, rest: Option<seq<Item>>): Option<seq<Item>> {
    if rest.None? then None else Some(items + rest.value)
  }

  function ItemOf(e: Emission): Item {
    Short(e.typ.Code(), e.tag, Payload(e.data, e.force))
  }

  function ItemsOf(es: seq<Emission>): seq<Item> {
    if es == [] then [] else [ItemOf(es[0])] + ItemsOf(es[1..])
  }

  lemma ReadEmitted(e: Emission, rest: seq<Byte>)
    ensures ReadItem(ItemBytes(e) + rest) == Some((ItemOf(e), rest))
  {
    var bs := ItemBytes(e) + rest;
    var w := Width(e.data, e.force);
    var t := e.typ.Code();
    assert bs[0] == e.tag * 16 + t * 4 + SizeBits(w);
    assert bs[0] % 4 == SizeBits(w) && bs[0] / 4 % 4 == t && bs[0] / 16 == e.tag;
    assert bs[1..1 + w] == Payload(e.data, e.force);
    assert bs[1 + w..] == rest;
  }

  /** Unique decodability: whatever bytes follow, emitted items are read back one
      for one and reading goes on exactly at the first byte after them. */
  lemma {:induction false} UniqueDecodability(es: seq<Emission>, rest: seq<Byte>)
    ensures ReadItems(EmitAll(es) + rest) == After(ItemsOf(es), ReadItems(rest))
  {
    if es == [] {
      assert EmitAll(es) + rest == rest;
      if ReadItems(rest).Some? {
        assert ItemsOf(es) + ReadItems(rest).value == ReadItems(rest).value;
      }
    } else {
      var tail := EmitAll(es[1..]) + rest;
      assert EmitAll(es) + rest == ItemBytes(es[0]) + tail;
      ReadEmitted(es[0], tail);
      UniqueDecodability(es[1..], rest);
      if ReadItems(rest).Some? {
        var items := ReadItems(rest).value;
        assert [ItemOf(es[0])] + (ItemsOf(es[1..]) + items) == ItemsOf(es) + items;
      }
    }
  }
}
