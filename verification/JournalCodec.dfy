/** The record codec of the raw journal (src/journal/journal_codec.cpp): little-endian fields, an
    optional exchange time behind a flag, and two strings behind their sizes. */
module JournalCodec {
  import opened FixedPoint

  type Byte = bv8

  const SCHEMA_VERSION: bv32 := 2
  const MAXIMUM_CHANNEL := 256
  const MAXIMUM_PAYLOAD := 16 * 1024 * 1024

  /** A raw market record. Its two times are the bit patterns of signed nanoseconds. */
  datatype Record = Record(schema: bv32, metadata: bv64, generation: bv64, receivedAt: bv64, observedAt: bv64, sequence: bv64,
                           exchangeTime: Option<bv64>, channel: seq<Byte>, payload: seq<Byte>)

  datatype Error = InvalidRecord | UnsupportedVersion | TruncatedRecord | RecordTooLarge | ChecksumMismatch

  datatype Decoded = Ok(record: Record) | Failed(error: Error)

  predicate ValidRecord(r: Record) {
    && r.schema == SCHEMA_VERSION && r.metadata != 0 && r.generation != 0
    && 1 <= |r.channel| <= MAXIMUM_CHANNEL && 1 <= |r.payload| <= MAXIMUM_PAYLOAD
  }

  // ------------------------------------------------------------------------
  // Fixed-width fields
  // ------------------------------------------------------------------------

  function LE32(v: bv32): (s: seq<Byte>)
    ensures |s| == 4
  {
    [(v & 0xff) as bv8, ((v >> 8) & 0xff) as bv8, ((v >> 16) & 0xff) as bv8, ((v >> 24) & 0xff) as bv8]
  }

  function FromLE32(s: seq<Byte>): bv32
    requires |s| == 4
  {
    (s[0] as bv32) | ((s[1] as bv32) << 8) | ((s[2] as bv32) << 16) | ((s[3] as bv32) << 24)
  }

  function LE64(v: bv64): (s: seq<Byte>)
    ensures |s| == 8
  {
    [(v & 0xff) as bv8, ((v >> 8) & 0xff) as bv8, ((v >> 16) & 0xff) as bv8, ((v >> 24) & 0xff) as bv8,
     ((v >> 32) & 0xff) as bv8, ((v >> 40) & 0xff) as bv8, ((v >> 48) & 0xff) as bv8, ((v >> 56) & 0xff) as bv8]
  }

  function Pack64(a: Byte, b: Byte, c: Byte, d: Byte, e: Byte, f: Byte, g: Byte, h: Byte): bv64 {
    (a as bv64) | ((b as bv64) << 8) | ((c as bv64) << 16) | ((d as bv64) << 24)
    | ((e as bv64) << 32) | ((f as bv64) << 40) | ((g as bv64) << 48) | ((h as bv64) << 56)
  }

  function FromLE64(s: seq<Byte>): bv64
    requires |s| == 8
  {
    Pack64(s[0], s[1], s[2], s[3], s[4], s[5], s[6], s[7])
  }

  lemma Read32(v: bv32)
    ensures FromLE32(LE32(v)) == v
  {
  }

  lemma Write32(s: seq<Byte>)
    requires |s| == 4
    ensures LE32(FromLE32(s)) == s
  {
    Bytes32(s[0], s[1], s[2], s[3]);
  }

  lemma Bytes32(a: Byte, b: Byte, c: Byte, d: Byte)
    ensures var v := (a as bv32) | ((b as bv32) << 8) | ((c as bv32) << 16) | ((d as bv32) << 24);
      && (v & 0xff) as bv8 == a && ((v >> 8) & 0xff) as bv8 == b && ((v >> 16) & 0xff) as bv8 == c && ((v >> 24) & 0xff) as bv8 == d
  {
  }

  lemma Read64(v: bv64)
    ensures FromLE64(LE64(v)) == v
  {
  }

  lemma Write64(s: seq<Byte>)
    requires |s| == 8
    ensures LE64(FromLE64(s)) == s
  {
    hide Pack64, LE64;
    Bytes64(s[0], s[1], s[2], s[3], s[4], s[5], s[6], s[7]);
    assert s == [s[0], s[1], s[2], s[3], s[4], s[5], s[6], s[7]];
  }

  lemma Bytes64(a: Byte, b: Byte, c: Byte, d: Byte, e: Byte, f: Byte, g: Byte, h: Byte)
    ensures LE64(Pack64(a, b, c, d, e, f, g, h)) == [a, b, c, d, e, f, g, h]
  {
    hide Pack64, LE64;
    PackedBytes(a, b, c, d, e, f, g, h);
    Unpacked64(Pack64(a, b, c, d, e, f, g, h), a, b, c, d, e, f, g, h);
  }

  lemma PackedBytes(a: Byte, b: Byte, c: Byte, d: Byte, e: Byte, f: Byte, g: Byte, h: Byte)
    ensures var v := Pack64(a, b, c, d, e, f, g, h);
      && (v & 0xff) as bv8 == a && ((v >> 8) & 0xff) as bv8 == b && ((v >> 16) & 0xff) as bv8 == c && ((v >> 24) & 0xff) as bv8 == d
      && ((v >> 32) & 0xff) as bv8 == e && ((v >> 40) & 0xff) as bv8 == f && ((v >> 48) & 0xff) as bv8 == g && ((v >> 56) & 0xff) as bv8 == h
  {
  }

  lemma Unpacked64(v: bv64, a: Byte, b: Byte, c: Byte, d: Byte, e: Byte, f: Byte, g: Byte, h: Byte)
    requires (v & 0xff) as bv8 == a && ((v >> 8) & 0xff) as bv8 == b && ((v >> 16) & 0xff) as bv8 == c && ((v >> 24) & 0xff) as bv8 == d
    requires ((v >> 32) & 0xff) as bv8 == e && ((v >> 40) & 0xff) as bv8 == f && ((v >> 48) & 0xff) as bv8 == g && ((v >> 56) & 0xff) as bv8 == h
    ensures LE64(v) == [a, b, c, d, e, f, g, h]
  {
  }

  // ------------------------------------------------------------------------
  // Sizes
  // ------------------------------------------------------------------------

  function Bit(on: bool, value: Byte): Byte {
    if on then value else 0
  }

  /** One more low bit. */
  function Double(on: bool, v: nat): nat {
    (if on then 1 else 0) + 2 * v
  }

  function Packed(a: bool, b: bool, c: bool, d: bool, e: bool, f: bool, g: bool, h: bool): Byte {
    Bit(a, 1) | Bit(b, 2) | Bit(c, 4) | Bit(d, 8) | Bit(e, 16) | Bit(f, 32) | Bit(g, 64) | Bit(h, 128)
  }

  function Halved(n: nat, v: nat): nat {
    if n == 0 then v else Halved(n - 1, v) / 2
  }

  /** Bit n of a number. */
  predicate BitOf(n: nat, v: nat) {
    Halved(n, v) % 2 == 1
  }

  /** The byte of a number below 256. */
  function ByteOf(v: nat): Byte {
    Packed(BitOf(0, v), BitOf(1, v), BitOf(2, v), BitOf(3, v), BitOf(4, v), BitOf(5, v), BitOf(6, v), BitOf(7, v))
  }

  function IntOf(x: Byte): nat {
    Double(x & 1 != 0, Double(x & 2 != 0, Double(x & 4 != 0, Double(x & 8 != 0,
      Double(x & 16 != 0, Double(x & 32 != 0, Double(x & 64 != 0, Double(x & 128 != 0, 0))))))))
  }

  lemma PackedBits(a: bool, b: bool, c: bool, d: bool, e: bool, f: bool, g: bool, h: bool)
    ensures var x := Packed(a, b, c, d, e, f, g, h);
      && (x & 1 != 0 <==> a) && (x & 2 != 0 <==> b) && (x & 4 != 0 <==> c) && (x & 8 != 0 <==> d)
      && (x & 16 != 0 <==> e) && (x & 32 != 0 <==> f) && (x & 64 != 0 <==> g) && (x & 128 != 0 <==> h)
  {
  }

  lemma IntOfPacked(a: bool, b: bool, c: bool, d: bool, e: bool, f: bool, g: bool, h: bool)
    ensures IntOf(Packed(a, b, c, d, e, f, g, h)) == Double(a, Double(b, Double(c, Double(d, Double(e, Double(f, Double(g, Double(h, 0))))))))
  {
    hide Packed, Double;
    PackedBits(a, b, c, d, e, f, g, h);
  }

  lemma PackedAgain(x: Byte)
    ensures Packed(x & 1 != 0, x & 2 != 0, x & 4 != 0, x & 8 != 0, x & 16 != 0, x & 32 != 0, x & 64 != 0, x & 128 != 0) == x
  {
  }

  lemma HalfOfDouble(on: bool, v: nat)
    ensures Double(on, v) / 2 == v && (Double(on, v) % 2 == 1 <==> on)
  {
  }

  lemma DoubleOfHalf(n: nat, v: nat)
    ensures Double(BitOf(n, v), Halved(n + 1, v)) == Halved(n, v)
  {
  }

  lemma HalvedAway(v: nat)
    requires v < 256
    ensures Halved(8, v) == 0 && Halved(0, v) == v
  {
    assert Halved(1, v) == v / 2;
    assert Halved(2, v) == Halved(1, v) / 2;
    assert Halved(3, v) == Halved(2, v) / 2;
    assert Halved(4, v) == Halved(3, v) / 2;
    assert Halved(5, v) == Halved(4, v) / 2;
    assert Halved(6, v) == Halved(5, v) / 2;
    assert Halved(7, v) == Halved(6, v) / 2;
  }

  lemma ReadByte(v: nat)
    requires v < 256
    ensures IntOf(ByteOf(v)) == v
  {
    hide Packed, Double, BitOf, Halved, IntOf;
    IntOfPacked(BitOf(0, v), BitOf(1, v), BitOf(2, v), BitOf(3, v), BitOf(4, v), BitOf(5, v), BitOf(6, v), BitOf(7, v));
    HalvedAway(v);
    DoubleOfHalf(7, v);
    DoubleOfHalf(6, v);
    DoubleOfHalf(5, v);
    DoubleOfHalf(4, v);
    DoubleOfHalf(3, v);
    DoubleOfHalf(2, v);
    DoubleOfHalf(1, v);
    DoubleOfHalf(0, v);
  }

  lemma HalvedNext(n: nat, v: nat, on: bool, rest: nat)
    requires Halved(n, v) == Double(on, rest)
    ensures Halved(n + 1, v) == rest && (BitOf(n, v) <==> on)
  {
    HalfOfDouble(on, rest);
  }

  lemma WriteByte(x: Byte)
    ensures IntOf(x) < 256 && ByteOf(IntOf(x)) == x
  {
    var a, b, c, d := x & 1 != 0, x & 2 != 0, x & 4 != 0, x & 8 != 0;
    var e, f, g, h := x & 16 != 0, x & 32 != 0, x & 64 != 0, x & 128 != 0;
    PackedAgain(x);
    BitsOfInt(IntOf(x), a, b, c, d, e, f, g, h);
    hide Packed, BitOf, Double;
  }

  lemma DoubleBelow(on: bool, v: nat, bound: nat)
    requires v < bound
    ensures Double(on, v) < 2 * bound
  {
  }

  lemma BitsOfInt(v: nat, a: bool, b: bool, c: bool, d: bool, e: bool, f: bool, g: bool, h: bool)
    requires v == Double(a, Double(b, Double(c, Double(d, Double(e, Double(f, Double(g, Double(h, 0))))))))
    ensures v < 256
    ensures (BitOf(0, v) <==> a) && (BitOf(1, v) <==> b) && (BitOf(2, v) <==> c) && (BitOf(3, v) <==> d)
    ensures (BitOf(4, v) <==> e) && (BitOf(5, v) <==> f) && (BitOf(6, v) <==> g) && (BitOf(7, v) <==> h)
  {
    assert Halved(0, v) == v;
    hide Double, BitOf, Halved;
    var x7 := Double(h, 0);
    var x6 := Double(g, x7);
    var x5 := Double(f, x6);
    var x4 := Double(e, x5);
    var x3 := Double(d, x4);
    var x2 := Double(c, x3);
    var x1 := Double(b, x2);
    DoubleBelow(h, 0, 1);
    DoubleBelow(g, x7, 2);
    DoubleBelow(f, x6, 4);
    DoubleBelow(e, x5, 8);
    DoubleBelow(d, x4, 16);
    DoubleBelow(c, x3, 32);
    DoubleBelow(b, x2, 64);
    DoubleBelow(a, x1, 128);
    HalvedNext(0, v, a, x1);
    HalvedNext(1, v, b, x2);
    HalvedNext(2, v, c, x3);
    HalvedNext(3, v, d, x4);
    HalvedNext(4, v, e, x5);
    HalvedNext(5, v, f, x6);
    HalvedNext(6, v, g, x7);
    HalvedNext(7, v, h, 0);
  }

  /** Digit k of a number to the base 256. */
  function Digit(k: nat, n: nat): nat {
    if k == 0 then n % 256 else if k == 1 then n / 256 % 256 else if k == 2 then n / 256 / 256 % 256 else n / 256 / 256 / 256 % 256
  }

  function SizeBytes(n: nat): (s: seq<Byte>)
    ensures |s| == 4
  {
    [ByteOf(Digit(0, n)), ByteOf(Digit(1, n)), ByteOf(Digit(2, n)), ByteOf(Digit(3, n))]
  }

  function FromDigits(a: nat, b: nat, c: nat, d: nat): nat {
    a + 256 * (b + 256 * (c + 256 * d))
  }

  function FromSize(s: seq<Byte>): nat
    requires |s| == 4
  {
    FromDigits(IntOf(s[0]), IntOf(s[1]), IntOf(s[2]), IntOf(s[3]))
  }

  lemma DigitsRead(n: nat)
    requires n < 0x1_0000_0000
    ensures FromDigits(Digit(0, n), Digit(1, n), Digit(2, n), Digit(3, n)) == n
    ensures Digit(0, n) < 256 && Digit(1, n) < 256 && Digit(2, n) < 256 && Digit(3, n) < 256
  {
    var m := n / 256;
    var k := m / 256;
    assert n == 256 * m + n % 256 && m == 256 * k + m % 256 && k == 256 * (k / 256) + k % 256 && k / 256 < 256;
  }

  lemma DigitsWritten(a: nat, b: nat, c: nat, d: nat)
    requires a < 256 && b < 256 && c < 256 && d < 256
    ensures var n := FromDigits(a, b, c, d);
      n < 0x1_0000_0000 && Digit(0, n) == a && Digit(1, n) == b && Digit(2, n) == c && Digit(3, n) == d
  {
    var n := FromDigits(a, b, c, d);
    assert n / 256 == b + 256 * (c + 256 * d);
    assert n / 256 / 256 == c + 256 * d;
  }

  lemma ReadSize(n: nat)
    requires n < 0x1_0000_0000
    ensures FromSize(SizeBytes(n)) == n
  {
    hide ByteOf, IntOf, FromDigits, Digit;
    DigitsRead(n);
    ReadByte(Digit(0, n));
    ReadByte(Digit(1, n));
    ReadByte(Digit(2, n));
    ReadByte(Digit(3, n));
  }

  lemma WriteSize(s: seq<Byte>)
    requires |s| == 4
    ensures FromSize(s) < 0x1_0000_0000 && SizeBytes(FromSize(s)) == s
  {
    hide ByteOf, IntOf, FromDigits, Digit;
    WriteByte(s[0]);
    WriteByte(s[1]);
    WriteByte(s[2]);
    WriteByte(s[3]);
    DigitsWritten(IntOf(s[0]), IntOf(s[1]), IntOf(s[2]), IntOf(s[3]));
  }

  // ------------------------------------------------------------------------
  // Records
  // ------------------------------------------------------------------------

  /** The fields before the flag. */
  function Header(r: Record): (s: seq<Byte>)
    ensures |s| == 44
  {
    LE32(r.schema) + LE64(r.metadata) + LE64(r.generation) + LE64(r.receivedAt) + LE64(r.observedAt) + LE64(r.sequence)
  }

  function Exchange(t: Option<bv64>): seq<Byte> {
    if t.None? then [0] else [1] + LE64(t.value)
  }

  function Encoded(r: Record): seq<Byte> {
    Header(r) + Exchange(r.exchangeTime) + SizeBytes(|r.channel|) + SizeBytes(|r.payload|) + r.channel + r.payload
  }

  /** The two strings and their sizes, which have to fill `s` exactly. */
  function DecodedStrings(s: seq<Byte>): Option<(seq<Byte>, seq<Byte>)>
    requires |s| >= 8
  {
    var c, p := FromSize(s[..4]), FromSize(s[4..8]);
    if c == 0 || c > MAXIMUM_CHANNEL || p == 0 || p > MAXIMUM_PAYLOAD || |s| - 8 != c + p then None
    else Some((s[8..8 + c], s[8 + c..]))
  }

  function Decode(s: seq<Byte>): Decoded {
    hide FromLE32, FromLE64, DecodedStrings;
    if |s| < 45 then Failed(TruncatedRecord)
    else if FromLE32(s[0..4]) != SCHEMA_VERSION then Failed(UnsupportedVersion)
    else if s[44] > 1 then Failed(InvalidRecord)
    else
      var at := if s[44] == 1 then 53 else 45;
      if |s| < at + 8 then Failed(TruncatedRecord)
      else
        var strings := DecodedStrings(s[at..]);
        if strings.None? || FromLE64(s[4..12]) == 0 || FromLE64(s[12..20]) == 0 then Failed(InvalidRecord)
        else
          Ok(Record(FromLE32(s[0..4]), FromLE64(s[4..12]), FromLE64(s[12..20]), FromLE64(s[20..28]), FromLE64(s[28..36]),
                    FromLE64(s[36..44]), if s[44] == 1 then Some(FromLE64(s[45..53])) else None, strings.value.0, strings.value.1))
  }

  // ------------------------------------------------------------------------
  // Round trips
  // ------------------------------------------------------------------------

  /** Where the fields are in an encoding. */
  lemma Layout(a: seq<Byte>, b: seq<Byte>, c: seq<Byte>, d: seq<Byte>, e: seq<Byte>, f: seq<Byte>, rest: seq<Byte>)
    requires |a| == 4 && |b| == |c| == |d| == |e| == |f| == 8
    ensures var s := a + b + c + d + e + f + rest;
      && s[0..4] == a && s[4..12] == b && s[12..20] == c && s[20..28] == d && s[28..36] == e && s[36..44] == f && s[44..] == rest
  {
  }

  lemma StringsRoundTrip(channel: seq<Byte>, payload: seq<Byte>)
    requires 1 <= |channel| <= MAXIMUM_CHANNEL && 1 <= |payload| <= MAXIMUM_PAYLOAD
    ensures DecodedStrings(SizeBytes(|channel|) + SizeBytes(|payload|) + channel + payload) == Some((channel, payload))
  {
    hide SizeBytes, FromSize;
    ReadSize(|channel|);
    ReadSize(|payload|);
    var s := SizeBytes(|channel|) + SizeBytes(|payload|) + channel + payload;
    assert s[..4] == SizeBytes(|channel|) && s[4..8] == SizeBytes(|payload|);
    assert s[8..8 + |channel|] == channel && s[8 + |channel|..] == payload;
  }

  /** Every valid record decodes from its encoding. */
  lemma DecodeInvertsEncode(r: Record)
    requires ValidRecord(r)
    ensures Decode(Encoded(r)) == Ok(r)
  {
    hide LE32, LE64, FromLE32, FromLE64, SizeBytes, DecodedStrings;
    var strings := SizeBytes(|r.channel|) + SizeBytes(|r.payload|) + r.channel + r.payload;
    var rest := Exchange(r.exchangeTime) + strings;
    var s := Encoded(r);
    assert s == LE32(r.schema) + LE64(r.metadata) + LE64(r.generation) + LE64(r.receivedAt) + LE64(r.observedAt) + LE64(r.sequence) + rest;
    Layout(LE32(r.schema), LE64(r.metadata), LE64(r.generation), LE64(r.receivedAt), LE64(r.observedAt), LE64(r.sequence), rest);
    Read32(r.schema);
    Read64(r.metadata);
    Read64(r.generation);
    Read64(r.receivedAt);
    Read64(r.observedAt);
    Read64(r.sequence);
    StringsRoundTrip(r.channel, r.payload);
    assert s[44] == rest[0];
    if r.exchangeTime.Some? {
      Read64(r.exchangeTime.value);
      assert s[45..53] == rest[1..9] == LE64(r.exchangeTime.value);
      assert s[53..] == rest[9..] == strings;
    } else {
      assert s[45..] == rest[1..] == strings;
    }
  }

  /** What decodes is the encoding of a valid record: decoding accepts exactly the image of
      encoding. */
  lemma EncodeInvertsDecode(s: seq<Byte>)
    requires Decode(s).Ok?
    ensures ValidRecord(Decode(s).record) && Encoded(Decode(s).record) == s
  {
    hide LE32, LE64, FromLE32, FromLE64, SizeBytes, Header, DecodedStrings;
    var r := Decode(s).record;
    FlagIsBit(s[44]);
    HeaderInverts(s, r);
    var at := if s[44] == 1 then 53 else 45;
    if s[44] == 1 {
      Write64(s[45..53]);
    }
    assert Exchange(r.exchangeTime) == s[44..at];
    StringsInvert(s[at..]);
    Join(s, 0, 44, at);
    Join(s, 0, at, |s|);
    EncodedParts(r);
  }

  lemma EncodedParts(r: Record)
    ensures Encoded(r) == Header(r) + Exchange(r.exchangeTime) + (SizeBytes(|r.channel|) + SizeBytes(|r.payload|) + r.channel + r.payload)
  {
    hide Header, Exchange, SizeBytes;
  }

  lemma Join(s: seq<Byte>, i: nat, j: nat, k: nat)
    requires i <= j <= k <= |s|
    ensures s[i..j] + s[j..k] == s[i..k]
    ensures s[0..|s|] == s && s[j..] == s[j..|s|]
  {
  }

  lemma HeaderInverts(s: seq<Byte>, r: Record)
    requires |s| >= 45
    requires r.schema == FromLE32(s[0..4]) && r.metadata == FromLE64(s[4..12]) && r.generation == FromLE64(s[12..20])
    requires r.receivedAt == FromLE64(s[20..28]) && r.observedAt == FromLE64(s[28..36]) && r.sequence == FromLE64(s[36..44])
    ensures Header(r) == s[0..44]
  {
    hide LE32, LE64, FromLE32, FromLE64;
    Write32(s[0..4]);
    Write64(s[4..12]);
    Write64(s[12..20]);
    Write64(s[20..28]);
    Write64(s[28..36]);
    Write64(s[36..44]);
    Join(s, 0, 4, 12);
    Join(s, 0, 12, 20);
    Join(s, 0, 20, 28);
    Join(s, 0, 28, 36);
    Join(s, 0, 36, 44);
  }

  lemma StringsInvert(t: seq<Byte>)
    requires |t| >= 8 && DecodedStrings(t).Some?
    ensures var (channel, payload) := DecodedStrings(t).value;
      && 1 <= |channel| <= MAXIMUM_CHANNEL && 1 <= |payload| <= MAXIMUM_PAYLOAD
      && SizeBytes(|channel|) + SizeBytes(|payload|) + channel + payload == t
  {
    hide SizeBytes, FromSize;
    WriteSize(t[..4]);
    WriteSize(t[4..8]);
    var c := FromSize(t[..4]);
    Join(t, 0, 4, 8);
    Join(t, 0, 8, 8 + c);
    Join(t, 0, 8 + c, |t|);
  }

  lemma FlagIsBit(b: Byte)
    ensures b <= 1 ==> b == 0 || b == 1
  {
  }

  lemma EncodedSize(r: Record)
    requires ValidRecord(r)
    ensures 55 <= |Encoded(r)| <= 61 + MAXIMUM_CHANNEL + MAXIMUM_PAYLOAD
  {
  }

  // ------------------------------------------------------------------------
  // The encoder and the decoder
  // ------------------------------------------------------------------------

  /** Replaces the buffer by the encoding of a valid record. */
  method EncodeInto(r: Record) returns (error: Option<Error>, bytes: seq<Byte>)
    ensures error == if ValidRecord(r) then None else Some(InvalidRecord)
    ensures error.None? ==> bytes == Encoded(r) && Decode(bytes) == Ok(r)
  {
    hide LE32, LE64, SizeBytes, Decode;
    if !ValidRecord(r) {
      return Some(InvalidRecord), [];
    }
    bytes := LE32(r.schema);
    bytes := bytes + LE64(r.metadata);
    bytes := bytes + LE64(r.generation);
    bytes := bytes + LE64(r.receivedAt);
    bytes := bytes + LE64(r.observedAt);
    bytes := bytes + LE64(r.sequence);
    bytes := bytes + [if r.exchangeTime.Some? then 1 else 0];
    if r.exchangeTime.Some? {
      bytes := bytes + LE64(r.exchangeTime.value);
    }
    bytes := bytes + SizeBytes(|r.channel|);
    bytes := bytes + SizeBytes(|r.payload|);
    bytes := bytes + r.channel;
    bytes := bytes + r.payload;
    assert bytes == Encoded(r);
    DecodeInvertsEncode(r);
    return None, bytes;
  }

  /** Advances over a byte string, or stays where it is when too little is left. */
  class RecordReader {
    const bytes: seq<Byte>
    var offset: nat

    ghost predicate Valid()
      reads this
    {
      offset <= |bytes|
    }

    constructor (bytes: seq<Byte>)
      ensures this.bytes == bytes && offset == 0
    {
      this.bytes, offset := bytes, 0;
    }

    method Take(size: nat) returns (r: Option<seq<Byte>>)
      requires Valid()
      modifies this
      ensures Valid() && r.Some? == (old(offset) + size <= |bytes|)
      ensures if r.Some? then offset == old(offset) + size && r.value == bytes[old(offset)..offset] else offset == old(offset)
    {
      if |bytes| - offset < size {
        return None;
      }
      offset := offset + size;
      return Some(bytes[offset - size..offset]);
    }
  }

  lemma TailSlice(s: seq<Byte>, at: nat, i: nat, j: nat)
    requires i <= j && at + j <= |s|
    ensures s[at..][i..j] == s[at + i..at + j]
  {
  }

  /** The sizes and the strings, which have to be all that is left. */
  method TakeStrings(reader: RecordReader) returns (missing: bool, strings: Option<(seq<Byte>, seq<Byte>)>)
    requires reader.Valid()
    modifies reader
    ensures missing == (|reader.bytes| - old(reader.offset) < 8)
    ensures !missing ==> strings == DecodedStrings(reader.bytes[old(reader.offset)..])
  {
    hide FromSize;
    strings := None;
    ghost var at, n := reader.offset, |reader.bytes|;
    var channelSize := reader.Take(4);
    var payloadSize := reader.Take(4);
    if channelSize.None? || payloadSize.None? {
      return true, None;
    }
    missing := false;
    TailSlice(reader.bytes, at, 0, 4);
    TailSlice(reader.bytes, at, 4, 8);
    var c, p := FromSize(channelSize.value), FromSize(payloadSize.value);
    if c == 0 || c > MAXIMUM_CHANNEL || p == 0 || p > MAXIMUM_PAYLOAD || |reader.bytes| - reader.offset != c + p {
      return;
    }
    TailSlice(reader.bytes, at, 8, 8 + c);
    TailSlice(reader.bytes, at, 8 + c, 8 + c + p);
    var channel := reader.Take(c);
    var payload := reader.Take(p);
    if channel.None? || payload.None? || reader.offset != |reader.bytes| {
      return;
    }
    assert reader.bytes[at..][8 + c..] == reader.bytes[at..][8 + c..8 + c + p];
    strings := Some((channel.value, payload.value));
  }

  /** Decoding succeeds exactly on the encodings of valid records. */
  lemma DecodeMeaning(bytes: seq<Byte>)
    ensures Decode(bytes).Ok? ==> ValidRecord(Decode(bytes).record) && bytes == Encoded(Decode(bytes).record)
    ensures forall x :: ValidRecord(x) && bytes == Encoded(x) ==> Decode(bytes) == Ok(x)
  {
    hide Decode, Encoded, ValidRecord;
    forall x | ValidRecord(x) && bytes == Encoded(x) ensures Decode(bytes) == Ok(x) {
      DecodeInvertsEncode(x);
    }
    if Decode(bytes).Ok? {
      EncodeInvertsDecode(bytes);
    }
  }

  method DecodeRecord(bytes: seq<Byte>) returns (r: Decoded)
    ensures r == Decode(bytes)
    ensures r.Ok? ==> ValidRecord(r.record) && bytes == Encoded(r.record)
    ensures forall x :: ValidRecord(x) && bytes == Encoded(x) ==> r == Ok(x)
  {
    hide FromLE32, FromLE64, DecodedStrings, Encoded, ValidRecord;
    DecodeMeaning(bytes);
    var reader := new RecordReader(bytes);
    var schema := reader.Take(4);
    var metadata := reader.Take(8);
    var generation := reader.Take(8);
    var received := reader.Take(8);
    var observed := reader.Take(8);
    var sequence := reader.Take(8);
    var flags := reader.Take(1);
    if schema.None? || metadata.None? || generation.None? || received.None? || observed.None? || sequence.None? || flags.None? {
      return Failed(TruncatedRecord);
    }
    if FromLE32(schema.value) != SCHEMA_VERSION {
      return Failed(UnsupportedVersion);
    }
    var flag := flags.value[0];
    if flag > 1 {
      return Failed(InvalidRecord);
    }
    var exchangeTime: Option<bv64> := None;
    if flag == 1 {
      var exchange := reader.Take(8);
      if exchange.None? {
        return Failed(TruncatedRecord);
      }
      exchangeTime := Some(FromLE64(exchange.value));
    }
    var missing, strings := TakeStrings(reader);
    if missing {
      return Failed(TruncatedRecord);
    }
    if strings.None? || FromLE64(metadata.value) == 0 || FromLE64(generation.value) == 0 {
      return Failed(InvalidRecord);
    }
    return Ok(Record(FromLE32(schema.value), FromLE64(metadata.value), FromLE64(generation.value), FromLE64(received.value),
                     FromLE64(observed.value), FromLE64(sequence.value), exchangeTime, strings.value.0, strings.value.1));
  }
}
