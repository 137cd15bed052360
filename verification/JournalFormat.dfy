/** The bytes of the raw journal (src/journal/journal_codec.cpp, src/journal/raw_journal.cpp): every
    field of a record and of a frame at its offset, and the check value of the checksum. */
module JournalFormat {
  import opened FixedPoint
  import opened JournalCodec
  import Checksum
  import RawJournal

  /** The bytes of s from `at` on are those of v, the least significant one first. */
  predicate Holds32(s: seq<Byte>, at: nat, v: bv32) {
    && |s| >= at + 4
    && s[at] == (v & 0xff) as bv8 && s[at + 1] == ((v >> 8) & 0xff) as bv8
    && s[at + 2] == ((v >> 16) & 0xff) as bv8 && s[at + 3] == ((v >> 24) & 0xff) as bv8
  }

  predicate Holds64(s: seq<Byte>, at: nat, v: bv64) {
    && |s| >= at + 8
    && s[at] == (v & 0xff) as bv8 && s[at + 1] == ((v >> 8) & 0xff) as bv8
    && s[at + 2] == ((v >> 16) & 0xff) as bv8 && s[at + 3] == ((v >> 24) & 0xff) as bv8
    && s[at + 4] == ((v >> 32) & 0xff) as bv8 && s[at + 5] == ((v >> 40) & 0xff) as bv8
    && s[at + 6] == ((v >> 48) & 0xff) as bv8 && s[at + 7] == ((v >> 56) & 0xff) as bv8
  }

  predicate HoldsSize(s: seq<Byte>, at: nat, n: nat) {
    && |s| >= at + 4
    && n == IntOf(s[at]) + 256 * IntOf(s[at + 1]) + 256 * 256 * IntOf(s[at + 2]) + 256 * 256 * 256 * IntOf(s[at + 3])
  }

  /** A record: the schema version 2, the metadata version, the connection's generation, the two
      receive times and the sequence number, eight bytes each, whether there is an exchange time, that
      time, the sizes of channel and payload, and the two themselves, with nothing behind. */
  lemma EncodedSpelledOut(r: Record)
    requires ValidRecord(r)
    ensures var s, at := Encoded(r), if r.exchangeTime.Some? then 53 else 45;
      && |s| == at + 8 + |r.channel| + |r.payload|
      && Holds32(s, 0, r.schema) && r.schema == 2 && Holds64(s, 4, r.metadata) && Holds64(s, 12, r.generation)
      && Holds64(s, 20, r.receivedAt) && Holds64(s, 28, r.observedAt) && Holds64(s, 36, r.sequence)
      && s[44] == (if r.exchangeTime.Some? then 1 else 0) && (r.exchangeTime.Some? ==> Holds64(s, 45, r.exchangeTime.value))
      && HoldsSize(s, at, |r.channel|) && HoldsSize(s, at + 4, |r.payload|)
      && s[at + 8..at + 8 + |r.channel|] == r.channel && s[at + 8 + |r.channel|..] == r.payload
  {
    SizesFit(r);
    hide *;
    HeaderSpelledOut(r);
    TailSpelledOut(r);
  }

  /** Everything from the flag on. */
  function Tail(r: Record): seq<Byte> {
    Exchange(r.exchangeTime) + (SizeBytes(|r.channel|) + SizeBytes(|r.payload|) + r.channel + r.payload)
  }

  lemma HeaderSpelledOut(r: Record)
    ensures var s := Encoded(r);
      && |s| >= 44 && s[44..] == Tail(r) && Holds32(s, 0, r.schema) && Holds64(s, 4, r.metadata) && Holds64(s, 12, r.generation)
      && Holds64(s, 20, r.receivedAt) && Holds64(s, 28, r.observedAt) && Holds64(s, 36, r.sequence)
  {
    hide LE32, LE64, SizeBytes, Holds32, Holds64;
    var s := Encoded(r);
    assert s == LE32(r.schema) + LE64(r.metadata) + LE64(r.generation) + LE64(r.receivedAt) + LE64(r.observedAt) + LE64(r.sequence) + Tail(r);
    Layout(LE32(r.schema), LE64(r.metadata), LE64(r.generation), LE64(r.receivedAt), LE64(r.observedAt), LE64(r.sequence), Tail(r));
    Part32(s, 0, r.schema);
    Part64(s, 4, r.metadata);
    Part64(s, 12, r.generation);
    Part64(s, 20, r.receivedAt);
    Part64(s, 28, r.observedAt);
    Part64(s, 36, r.sequence);
  }

  lemma TailSpelledOut(r: Record)
    requires |Encoded(r)| >= 44 && Encoded(r)[44..] == Tail(r) && |r.channel| < 0x1_0000_0000 && |r.payload| < 0x1_0000_0000
    ensures var s, at := Encoded(r), if r.exchangeTime.Some? then 53 else 45;
      && |s| == at + 8 + |r.channel| + |r.payload|
      && s[44] == (if r.exchangeTime.Some? then 1 else 0) && (r.exchangeTime.Some? ==> Holds64(s, 45, r.exchangeTime.value))
      && HoldsSize(s, at, |r.channel|) && HoldsSize(s, at + 4, |r.payload|)
      && s[at + 8..at + 8 + |r.channel|] == r.channel && s[at + 8 + |r.channel|..] == r.payload
  {
    hide Encoded, LE64, SizeBytes, Holds64, HoldsSize;
    var s, at, tail := Encoded(r), if r.exchangeTime.Some? then 53 else 45, Tail(r);
    var rest := SizeBytes(|r.channel|) + SizeBytes(|r.payload|) + r.channel + r.payload;
    assert s[44] == tail[0];
    assert s[at..] == s[44..][at - 44..] == rest;
    if r.exchangeTime.Some? {
      assert s[45..53] == tail[1..9] == LE64(r.exchangeTime.value);
      Part64(s, 45, r.exchangeTime.value);
    }
    StringsSpelledOut(s, at, r.channel, r.payload);
  }

  lemma SizesFit(r: Record)
    requires ValidRecord(r)
    ensures |r.channel| < 0x1_0000_0000 && |r.payload| < 0x1_0000_0000 && r.schema == 2
  {
  }

  lemma Part32(s: seq<Byte>, at: nat, v: bv32)
    requires at + 4 <= |s| && s[at..at + 4] == LE32(v)
    ensures Holds32(s, at, v)
  {
    var part := s[at..at + 4];
    assert s[at] == part[0] && s[at + 1] == part[1] && s[at + 2] == part[2] && s[at + 3] == part[3];
  }

  lemma Part64(s: seq<Byte>, at: nat, v: bv64)
    requires at + 8 <= |s| && s[at..at + 8] == LE64(v)
    ensures Holds64(s, at, v)
  {
    var part := s[at..at + 8];
    assert s[at] == part[0] && s[at + 1] == part[1] && s[at + 2] == part[2] && s[at + 3] == part[3];
    assert s[at + 4] == part[4] && s[at + 5] == part[5] && s[at + 6] == part[6] && s[at + 7] == part[7];
  }

  lemma PartSize(s: seq<Byte>, at: nat, n: nat)
    requires at + 4 <= |s| && s[at..at + 4] == SizeBytes(n) && n < 0x1_0000_0000
    ensures HoldsSize(s, at, n)
  {
    hide SizeBytes, IntOf, FromDigits;
    var part := s[at..at + 4];
    ReadSize(n);
    DigitsSum(IntOf(part[0]), IntOf(part[1]), IntOf(part[2]), IntOf(part[3]));
    assert s[at] == part[0] && s[at + 1] == part[1] && s[at + 2] == part[2] && s[at + 3] == part[3];
  }

  lemma DigitsSum(a: nat, b: nat, c: nat, d: nat)
    ensures FromDigits(a, b, c, d) == a + 256 * b + 256 * 256 * c + 256 * 256 * 256 * d
  {
  }

  /** The value of a byte. */
  lemma ByteValue(x: Byte)
    ensures IntOf(x) == x as int
  {
  }

  lemma StringsSpelledOut(s: seq<Byte>, at: nat, channel: seq<Byte>, payload: seq<Byte>)
    requires at <= |s| && s[at..] == SizeBytes(|channel|) + SizeBytes(|payload|) + channel + payload
    requires |channel| < 0x1_0000_0000 && |payload| < 0x1_0000_0000
    ensures |s| == at + 8 + |channel| + |payload| && HoldsSize(s, at, |channel|) && HoldsSize(s, at + 4, |payload|)
    ensures s[at + 8..at + 8 + |channel|] == channel && s[at + 8 + |channel|..] == payload
  {
    hide SizeBytes, HoldsSize;
    var rest := s[at..];
    assert s[at..at + 4] == rest[..4] == SizeBytes(|channel|);
    assert s[at + 4..at + 8] == rest[4..8] == SizeBytes(|payload|);
    PartSize(s, at, |channel|);
    PartSize(s, at + 4, |payload|);
    assert s[at + 8..at + 8 + |channel|] == rest[8..8 + |channel|];
    assert s[at + 8 + |channel|..] == rest[8 + |channel|..];
  }

  /** A frame: the record's size, the record, and its checksum. */
  lemma FrameSpelledOut(r: Record)
    requires ValidRecord(r)
    ensures var s, n := RawJournal.Frame(r), |Encoded(r)|;
      && |s| == n + 8 && HoldsSize(s, 0, n) && s[4..4 + n] == Encoded(r) && Holds32(s, 4 + n, Checksum.Crc32(Encoded(r)))
      && 55 <= n <= 16 * 1024 * 1024 + 256 + 80
  {
    EncodedSize(r);
    RawJournal.FrameParts(Encoded(r), []);
    hide SizeBytes, LE32, Encoded, HoldsSize, Holds32;
    var s, n := RawJournal.Frame(r), |Encoded(r)|;
    assert s + [] == s;
    assert s[0..4] == s[..4];
    PartSize(s, 0, n);
    Part32(s, 4 + n, Checksum.Crc32(Encoded(r)));
  }

  /** Why bytes are not a record, in this order: too short, another version, a flag that is neither 0
      nor 1, too short for its sizes, and anything else. */
  lemma DecodeFailures(s: seq<Byte>)
    ensures if |s| < 45 then Decode(s) == Failed(TruncatedRecord)
      else if !Holds32(s, 0, 2) then Decode(s) == Failed(UnsupportedVersion)
      else if s[44] != 0 && s[44] != 1 then Decode(s) == Failed(InvalidRecord)
      else if |s| < (if s[44] == 1 then 61 else 53) then Decode(s) == Failed(TruncatedRecord)
      else Decode(s).Ok? || Decode(s) == Failed(InvalidRecord)
  {
    if |s| >= 45 {
      ReadsAs32(s, 0, 2);
      FlagValues(s[44]);
    }
    hide FromLE32, FromLE64, DecodedStrings, Holds32;
  }

  lemma ReadsAs32(s: seq<Byte>, at: nat, v: bv32)
    requires at + 4 <= |s|
    ensures FromLE32(s[at..at + 4]) == v <==> Holds32(s, at, v)
  {
    var part := s[at..at + 4];
    assert s[at] == part[0] && s[at + 1] == part[1] && s[at + 2] == part[2] && s[at + 3] == part[3];
    Read32(v);
    Write32(part);
    assert Holds32(s, at, v) ==> part == LE32(v);
    hide FromLE32;
  }

  lemma FlagValues(b: Byte)
    ensures b > 1 <==> b != 0 && b != 1
  {
  }

  /** What reading finds at the start of `data`, whose first four bytes are the size n. */
  lemma ReadSpelledOut(data: seq<Byte>, n: nat)
    ensures data == [] ==> RawJournal.ReadOne(data) == RawJournal.EndOfJournal
    ensures 0 < |data| < 4 ==> RawJournal.ReadOne(data) == RawJournal.Bad(TruncatedRecord)
    ensures HoldsSize(data, 0, n) ==>
      RawJournal.ReadOne(data)
      == if n < 53 then RawJournal.Bad(InvalidRecord)
         else if n > 16 * 1024 * 1024 + 256 + 80 then RawJournal.Bad(RecordTooLarge)
         else if |data| < n + 8 then RawJournal.Bad(TruncatedRecord)
         else if !Holds32(data, n + 4, Checksum.Crc32(data[4..n + 4])) then RawJournal.Bad(ChecksumMismatch)
         else match Decode(data[4..n + 4])
              case Ok(r) => RawJournal.Got(r)
              case Failed(error) => RawJournal.Bad(error)
  {
    hide FromLE32, IntOf, Decode, Holds32;
    if |data| >= 4 {
      assert FromSize(data[..4]) == n <==> HoldsSize(data, 0, n);
      if n + 8 <= |data| {
        ReadsAs32(data, n + 4, Checksum.Crc32(data[4..n + 4]));
      }
    }
  }

  /** The check value of CRC-32: the checksum of the digits from 1 to 9. */
  lemma CheckValue()
    ensures Checksum.Crc32([0x31, 0x32, 0x33, 0x34, 0x35, 0x36, 0x37, 0x38, 0x39]) == 0xcbf4_3926
  {
    hide Checksum.Serial;
    var digits: seq<Byte> := [0x31, 0x32, 0x33, 0x34, 0x35, 0x36, 0x37, 0x38, 0x39];
    NoBytes(digits);
    OneMore(digits, 0, 0xffff_ffff, 0x7c23_1048);
    OneMore(digits, 1, 0x7c23_1048, 0xb0ac_bb32);
    OneMore(digits, 2, 0xb0ac_bb32, 0x77b7_9c2d);
    OneMore(digits, 3, 0x77b7_9c2d, 0x641c_1f5c);
    OneMore(digits, 4, 0x641c_1f5c, 0x340a_c5e3);
    OneMore(digits, 5, 0x340a_c5e3, 0xf68d_2c9e);
    OneMore(digits, 6, 0xf68d_2c9e, 0xaffc_9660);
    OneMore(digits, 7, 0xaffc_9660, 0x651f_2550);
    OneMore(digits, 8, 0x651f_2550, 0x340b_c6d9);
    assert digits[..9] == digits;
  }

  lemma NoBytes(bytes: seq<Byte>)
    ensures Checksum.Serial(Checksum.START, bytes[..0]) == 0xffff_ffff
  {
  }

  function Stepped(crc: bv32): bv32 {
    if crc & 1 == 1 then (crc >> 1) ^ 0xedb8_8320 else crc >> 1
  }

  lemma OneMore(bytes: seq<Byte>, k: nat, before: bv32, after: bv32)
    requires k < |bytes| && Checksum.Serial(Checksum.START, bytes[..k]) == before
    requires after == Stepped(Stepped(Stepped(Stepped(Stepped(Stepped(Stepped(Stepped(before ^ (bytes[k] as bv32)))))))))
    ensures Checksum.Serial(Checksum.START, bytes[..k + 1]) == after
  {
    assert bytes[..k + 1][..k] == bytes[..k];
    Checksum.EightSteps(before ^ (bytes[k] as bv32));
    assert forall crc: bv32 :: Stepped(crc) == Checksum.BitStep(crc);
    hide Stepped, Checksum.BitStep, Checksum.BitSteps;
  }
}
