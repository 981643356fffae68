/** The hexadecimal text of a report descriptor: device_profile.cpp, lines 15-34. */
module HexCodec {
  import opened Core

  predicate IsHex(c: char) {
    '0' <= c <= '9' || 'a' <= c <= 'f' || 'A' <= c <= 'F'
  }

  function HexValue(c: char): (v: int)
    requires IsHex(c)
    ensures 0 <= v < 16
  {
    if c <= '9' then c as int - '0' as int
    else if c <= 'F' then c as int - 'A' as int + 10
    else c as int - 'a' as int + 10
  }

  function Digit(v: int): (c: char)
    requires 0 <= v < 16
    ensures IsHex(c) && HexValue(c) == v && LowerChar(c) == c
  {
    if v < 10 then ('0' as int + v) as char else ('a' as int + v - 10) as char
  }

  function LowerChar(c: char): char {
    if 'A' <= c <= 'Z' then (c as int + 32) as char else c
  }

  function Lower(s: string): string {
    seq(|s|, i requires 0 <= i < |s| => LowerChar(s[i]))
  }

  /** Two digits, zero-filled, lower case. */
  function HexOf(b: Byte): (s: string)
    ensures |s| == 2
  {
    [Digit(b / 16), Digit(b % 16)]
  }

  function ToHex(data: seq<Byte>): (s: string)
    ensures |s| == 2 * |data|
  {
    if data == [] then [] else HexOf(data[0]) + ToHex(data[1..])
  }

  predicate IsSpace(c: char) {
    c == ' ' || '\t' <= c <= '\r'
  }

  /**
   * What stream extraction in base 16 makes of two characters, truncated to a byte: leading white
   * space is skipped, a sign is accepted, digits are taken as far as they go, and a failed
   * extraction leaves zero.
   */
  function Extracted(a: char, b: char): Byte {
    if IsHex(a) then
      if IsHex(b) then 16 * HexValue(a) + HexValue(b) else HexValue(a)
    else if !IsHex(b) then 0
    else if IsSpace(a) || a == '+' then HexValue(b)
    else if a == '-' then (0x100 - HexValue(b)) % 0x100
    else 0
  }

  /** An odd last character is ignored. */
  function FromHex(s: string): (data: seq<Byte>)
    ensures |data| == |s| / 2
  {
    if |s| < 2 then [] else [Extracted(s[0], s[1])] + FromHex(s[2..])
  }

  method BytesToHex(data: seq<Byte>) returns (s: string)
    ensures s == ToHex(data)
  {
    s := [];
    for i := 0 to |data|
      invariant s + ToHex(data[i..]) == ToHex(data)
    {
      assert data[i..][1..] == data[i + 1..];
      AppendAssociates(s, HexOf(data[i]), ToHex(data[i + 1..]));
      s := s + HexOf(data[i]);
    }
  }

  method HexToBytes(hex: string) returns (data: seq<Byte>)
    ensures data == FromHex(hex)
  {
    data := [];
    var i := 0;
    while i + 1 < |hex|
      invariant 0 <= i <= |hex|
      invariant data + FromHex(hex[i..]) == FromHex(hex)
    {
      assert hex[i..][2..] == hex[i + 2..];
      AppendAssociates(data, [Extracted(hex[i], hex[i + 1])], FromHex(hex[i + 2..]));
      data := data + [Extracted(hex[i], hex[i + 1])];
      i := i + 2;
    }
  }

  /** Decoding inverts encoding on every byte string. */
  lemma {:induction false} HexRoundTrip(data: seq<Byte>)
    ensures FromHex(ToHex(data)) == data
  {
    if data != [] {
      HexRoundTrip(data[1..]);
      assert ToHex(data)[2..] == ToHex(data[1..]);
    }
  }

  predicate AllHex(s: string) {
    forall i :: 0 <= i < |s| ==> IsHex(s[i])
  }

  lemma {:induction false} EncodedIsHex(data: seq<Byte>)
    ensures AllHex(ToHex(data))
  {
    if data != [] {
      EncodedIsHex(data[1..]);
    }
  }

  lemma LowerOfDigit(c: char)
    ensures IsHex(c) <==> IsHex(LowerChar(c))
    ensures IsHex(c) ==> Digit(HexValue(c)) == LowerChar(c)
  {}

  lemma PairRoundTrip(a: char, b: char)
    requires IsHex(a) && IsHex(b)
    ensures HexOf(Extracted(a, b)) == [LowerChar(a), LowerChar(b)]
  {
    LowerOfDigit(a);
    LowerOfDigit(b);
  }

  lemma {:induction false} LowersHex(s: string)
    requires |s| % 2 == 0 && AllHex(s)
    ensures ToHex(FromHex(s)) == Lower(s)
  {
    if s != [] {
      LowersHex(s[2..]);
      PairRoundTrip(s[0], s[1]);
      var data := FromHex(s);
      assert data[1..] == FromHex(s[2..]);
      assert Lower(s) == [LowerChar(s[0]), LowerChar(s[1])] + Lower(s[2..]);
    }
  }

  /** Encoding what was decoded lower-cases the text exactly when it was whole pairs of hex digits. */
  lemma {:induction false} ReencodingLowers(s: string)
    ensures ToHex(FromHex(s)) == Lower(s) <==> |s| % 2 == 0 && AllHex(s)
  {
    if |s| % 2 == 0 && AllHex(s) {
      LowersHex(s);
    }
    if ToHex(FromHex(s)) == Lower(s) {
      EncodedIsHex(FromHex(s));
      forall i | 0 <= i < |s| ensures IsHex(s[i]) {
        assert Lower(s)[i] == LowerChar(s[i]);
        LowerOfDigit(s[i]);
      }
    }
  }
  // ---------- stream extraction of any text ----------

  function SkipSpace(s: string): string {
    if s != "" && IsSpace(s[0]) then SkipSpace(s[1..]) else s
  }

  /** The digits a text begins with. */
  function LeadingDigits(s: string): (d: string)
    ensures AllHex(d) && d <= s
  {
    if s != "" && IsHex(s[0]) then [s[0]] + LeadingDigits(s[1..]) else ""
  }

  function NumberOf(d: string): nat
    requires AllHex(d)
  {
    if d == "" then 0 else 16 * NumberOf(d[..|d| - 1]) + HexValue(d[|d| - 1])
  }

  /** What `>> std::hex` leaves in an unsigned number after reading a text of at most eight
      digits: white space, a sign, digits; a negative number wraps, no digits give 0. */
  function Scan(s: string): U32 {
    var t := SkipSpace(s);
    var signed := t != "" && (t[0] == '-' || t[0] == '+');
    var digits := LeadingDigits(if signed then t[1..] else t);
    var n: int := NumberOf(digits);
    (if signed && t[0] == '-' then -n else n) % 0x1_0000_0000
  }

  lemma NumberOfOne(a: char)
    requires IsHex(a)
    ensures NumberOf([a]) == HexValue(a)
  {
    assert [a][..0] == "";
  }

  lemma NumberOfTwo(a: char, b: char)
    requires IsHex(a) && IsHex(b)
    ensures NumberOf([a, b]) == 16 * HexValue(a) + HexValue(b)
  {
    assert [a, b][..1] == [a];
    NumberOfOne(a);
  }

  lemma DigitsOfOne(a: char)
    ensures LeadingDigits([a]) == if IsHex(a) then [a] else ""
  {
    assert [a][1..] == "";
  }

  lemma DigitsOfTwo(a: char, b: char)
    ensures LeadingDigits([a, b]) == if !IsHex(a) then "" else if IsHex(b) then [a, b] else [a]
  {
    assert [a, b][1..] == [b];
    DigitsOfOne(b);
  }

  /** Scanning a text without leading space. */
  lemma ScanUnsigned(s: string)
    requires s != "" && !IsSpace(s[0]) && s[0] != '-' && s[0] != '+'
    ensures Scan(s) == NumberOf(LeadingDigits(s)) % 0x1_0000_0000
  {}

  lemma SmallStays(n: nat)
    requires n < 0x100
    ensures n % 0x1_0000_0000 == n && n % 0x100 == n
  {}

  lemma ScanOne(a: char)
    ensures Scan([a]) == if IsHex(a) then HexValue(a) else 0
  {
    assert [a][1..] == "" && LeadingDigits("") == "";
    DigitsOfOne(a);
    if IsHex(a) {
      ScanUnsigned([a]);
      NumberOfOne(a);
      SmallStays(HexValue(a));
    } else if IsSpace(a) {
      assert SkipSpace([a]) == "";
    } else if a == '-' || a == '+' {
    } else {
      ScanUnsigned([a]);
    }
  }

  lemma NegativeWraps(v: int)
    requires 0 <= v < 16
    ensures (-v) % 0x1_0000_0000 % 0x100 == (0x100 - v) % 0x100
  {
    assert (-v) % 0x1_0000_0000 == if v == 0 then 0 else 0x1_0000_0000 - v;
  }

  /** Scanning a sign and one more character. */
  lemma ScanAfterSign(a: char, b: char)
    requires a == '-' || a == '+'
    ensures var n: int := NumberOf(LeadingDigits([b]));
            Scan([a, b]) == (if a == '-' then -n else n) % 0x1_0000_0000
  {
    assert [a, b][1..] == [b];
    assert SkipSpace([a, b]) == [a, b];
  }

  lemma ScanSigned(a: char, b: char)
    requires a == '-' || a == '+'
    ensures Scan([a, b]) % 0x100
         == if !IsHex(b) then 0 else if a == '+' then HexValue(b) else (0x100 - HexValue(b)) % 0x100
  {
    ScanAfterSign(a, b);
    DigitsOfOne(b);
    if IsHex(b) {
      NumberOfOne(b);
      NegativeWraps(HexValue(b));
      SmallStays(HexValue(b));
    }
  }

  lemma ScanDigits(a: char, b: char)
    requires IsHex(a)
    ensures Scan([a, b]) == if IsHex(b) then 16 * HexValue(a) + HexValue(b) else HexValue(a)
  {
    ScanUnsigned([a, b]);
    DigitsOfTwo(a, b);
    if IsHex(b) {
      NumberOfTwo(a, b);
      SmallStays(16 * HexValue(a) + HexValue(b));
    } else {
      NumberOfOne(a);
      SmallStays(HexValue(a));
    }
  }

  lemma ScanSpaced(a: char, b: char)
    requires IsSpace(a)
    ensures Scan([a, b]) == Scan([b])
  {
    assert [a, b][1..] == [b];
  }

  lemma PairScans(a: char, b: char)
    ensures Extracted(a, b) == Scan([a, b]) % 0x100
  {
    SmallStays(Extracted(a, b));
    if IsHex(a) {
      ScanDigits(a, b);
    } else if a == '-' || a == '+' {
      ScanSigned(a, b);
    } else if IsSpace(a) {
      ScanSpaced(a, b);
      ScanOne(b);
    } else {
      ScanUnsigned([a, b]);
      DigitsOfTwo(a, b);
    }
  }

  lemma {:induction false} DecodedAt(s: string, i: nat)
    requires i < |s| / 2
    ensures FromHex(s)[i] == Extracted(s[2 * i], s[2 * i + 1])
  {
    if i > 0 {
      DecodedAt(s[2..], i - 1);
    }
  }

  /** Every byte of a decoded text, whatever its characters, is what stream extraction makes of the
      pair at its place, truncated. */
  lemma DecodedPairs(s: string, i: nat)
    requires i < |s| / 2
    ensures FromHex(s)[i] == Scan([s[2 * i], s[2 * i + 1]]) % 0x100
  {
    DecodedAt(s, i);
    PairScans(s[2 * i], s[2 * i + 1]);
  }
}
