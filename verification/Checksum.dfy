/** The journal's checksum (src/journal/journal_codec.cpp): a table-driven CRC-32, against the
    bit-by-bit reflected CRC of section 8 of RFC 1952. */
module Checksum {
  type Byte = bv8

  // Bit operations, named so that proofs about steps need not see their bits.

  function Xor(a: bv32, b: bv32): bv32 {
    a ^ b
  }

  function Half(a: bv32): bv32 {
    a >> 1
  }

  predicate Odd(a: bv32) {
    a & 1 != 0
  }

  function Low(a: bv32): bv32 {
    a & 0xff
  }

  function High(a: bv32): bv32 {
    a >> 8
  }

  function Widened(b: Byte): bv32 {
    b as bv32
  }

  function Complement(a: bv32): bv32 {
    !a
  }

  const POLYNOMIAL: bv32 := 0xedb8_8320
  const START: bv32 := 0xffff_ffff

  /** One step of the reflected polynomial division. */
  function BitStep(crc: bv32): bv32 {
    if Odd(crc) then Xor(Half(crc), POLYNOMIAL) else Half(crc)
  }

  function BitSteps(n: nat, crc: bv32): bv32 {
    if n == 0 then crc else BitStep(BitSteps(n - 1, crc))
  }

  /** The CRC register after every byte, one bit at a time. */
  function Serial(crc: bv32, bytes: seq<Byte>): bv32 {
    if bytes == [] then crc
    else BitSteps(8, Xor(Serial(crc, bytes[..|bytes| - 1]), Widened(bytes[|bytes| - 1])))
  }

  function Crc32(bytes: seq<Byte>): bv32 {
    Complement(Serial(START, bytes))
  }

  // ------------------------------------------------------------------------
  // Linearity
  // ------------------------------------------------------------------------

  lemma HalfOfXor(a: bv32, b: bv32)
    ensures Half(Xor(a, b)) == Xor(Half(a), Half(b))
  {
  }

  lemma OddXor(a: bv32, b: bv32)
    ensures Odd(Xor(a, b)) <==> Odd(a) != Odd(b)
  {
  }

  lemma XorAssociates(a: bv32, b: bv32, p: bv32)
    ensures Xor(a, Xor(b, p)) == Xor(Xor(a, b), p)
  {
  }

  lemma XorCommutes(a: bv32, b: bv32)
    ensures Xor(a, b) == Xor(b, a)
  {
  }

  lemma XorTwice(a: bv32, p: bv32)
    ensures Xor(Xor(a, p), p) == a
  {
  }

  lemma XorMoves(a: bv32, b: bv32, p: bv32)
    ensures Xor(Xor(a, p), b) == Xor(Xor(a, b), p)
  {
    hide Xor;
    XorAssociates(a, p, b);
    XorAssociates(a, b, p);
    XorCommutes(p, b);
  }

  lemma XorCancels(a: bv32, b: bv32, p: bv32)
    ensures Xor(Xor(a, p), Xor(b, p)) == Xor(a, b)
  {
    hide Xor;
    XorAssociates(Xor(a, p), b, p);
    XorMoves(a, b, p);
    XorTwice(Xor(a, b), p);
  }

  lemma XorInjective(a: bv32, b: bv32, c: bv32)
    ensures Xor(a, c) == Xor(b, c) ==> a == b
    ensures Xor(c, a) == Xor(c, b) ==> a == b
  {
  }

  lemma StepLinear(a: bv32, b: bv32)
    ensures BitStep(Xor(a, b)) == Xor(BitStep(a), BitStep(b))
  {
    HalfOfXor(a, b);
    OddXor(a, b);
    XorCancels(Half(a), Half(b), POLYNOMIAL);
    XorMoves(Half(a), Half(b), POLYNOMIAL);
    XorAssociates(Half(a), Half(b), POLYNOMIAL);
    hide Xor, Half, Odd;
  }

  /** The polynomial's top bit tells which branch was taken. */
  lemma StepInjective(a: bv32, b: bv32)
    ensures BitStep(a) == BitStep(b) ==> a == b
  {
  }

  lemma {:induction false} StepsLinear(n: nat, a: bv32, b: bv32)
    ensures BitSteps(n, Xor(a, b)) == Xor(BitSteps(n, a), BitSteps(n, b))
  {
    hide Xor, BitStep;
    if n > 0 {
      StepsLinear(n - 1, a, b);
      StepLinear(BitSteps(n - 1, a), BitSteps(n - 1, b));
    }
  }

  lemma {:induction false} StepsInjective(n: nat, a: bv32, b: bv32)
    ensures BitSteps(n, a) == BitSteps(n, b) ==> a == b
  {
    hide BitStep;
    if n > 0 {
      StepInjective(BitSteps(n - 1, a), BitSteps(n - 1, b));
      StepsInjective(n - 1, a, b);
    }
  }

  lemma EvenStep(crc: bv32)
    requires crc & 1 == 0
    ensures BitStep(crc) == crc >> 1
  {
  }

  lemma EightSteps(crc: bv32)
    ensures BitSteps(8, crc) == BitStep(BitStep(BitStep(BitStep(BitStep(BitStep(BitStep(BitStep(crc))))))))
  {
    hide BitStep;
    assert BitSteps(1, crc) == BitStep(BitSteps(0, crc));
    assert BitSteps(2, crc) == BitStep(BitSteps(1, crc));
    assert BitSteps(3, crc) == BitStep(BitSteps(2, crc));
    assert BitSteps(4, crc) == BitStep(BitSteps(3, crc));
    assert BitSteps(5, crc) == BitStep(BitSteps(4, crc));
    assert BitSteps(6, crc) == BitStep(BitSteps(5, crc));
    assert BitSteps(7, crc) == BitStep(BitSteps(6, crc));
  }

  lemma EightShifts(a: bv32)
    requires a & 0xff == 0
    ensures a & 1 == 0 && (a >> 1) & 1 == 0 && (a >> 2) & 1 == 0 && (a >> 3) & 1 == 0
    ensures (a >> 4) & 1 == 0 && (a >> 5) & 1 == 0 && (a >> 6) & 1 == 0 && (a >> 7) & 1 == 0
  {
  }

  lemma ShiftsAdd(a: bv32)
    ensures (a >> 1) >> 1 == a >> 2 && (a >> 2) >> 1 == a >> 3 && (a >> 3) >> 1 == a >> 4 && (a >> 4) >> 1 == a >> 5
    ensures (a >> 5) >> 1 == a >> 6 && (a >> 6) >> 1 == a >> 7 && (a >> 7) >> 1 == a >> 8
  {
  }

  /** Without low bits eight steps only shift. */
  lemma HighBitsShift(a: bv32)
    requires a & 0xff == 0
    ensures BitSteps(8, a) == a >> 8
  {
    EightSteps(a);
    EightShifts(a);
    ShiftsAdd(a);
    hide BitStep;
    EvenStep(a);
    EvenStep(a >> 1);
    EvenStep(a >> 2);
    EvenStep(a >> 3);
    EvenStep(a >> 4);
    EvenStep(a >> 5);
    EvenStep(a >> 6);
    EvenStep(a >> 7);
  }

  function Upper(a: bv32): bv32 {
    a & 0xffff_ff00
  }

  lemma UpperAndLow(crc: bv32)
    ensures Xor(Upper(crc), Low(crc)) == crc
  {
    hide *;
    SplitByte(crc);
    UpperLowBits(crc);
  }

  lemma SplitByte(crc: bv32)
    ensures (crc & 0xffff_ff00) ^ (crc & 0xff) == crc
  {
    hide *;
  }

  lemma UpperLowBits(crc: bv32)
    ensures Xor(Upper(crc), Low(crc)) == (crc & 0xffff_ff00) ^ (crc & 0xff)
  {
    hide BitSteps, BitStep;
  }

  lemma UpperIsHigh(crc: bv32)
    ensures Upper(crc) & 0xff == 0 && Upper(crc) >> 8 == High(crc)
  {
  }

  lemma HighOfMixed(crc: bv32, b: Byte)
    ensures High(Xor(crc, Widened(b))) == High(crc)
  {
  }

  /** Eight steps are a shift and one table look-up on the low byte. */
  lemma TableStep(crc: bv32)
    ensures BitSteps(8, crc) == Xor(High(crc), BitSteps(8, Low(crc)))
  {
    UpperAndLow(crc);
    UpperIsHigh(crc);
    hide Low, High, Upper, Xor, BitSteps;
    StepsLinear(8, Upper(crc), Low(crc));
    HighBitsShift(Upper(crc));
  }

  // ------------------------------------------------------------------------
  // The table and the checksum
  // ------------------------------------------------------------------------

  /** One entry of the table. */
  method TableEntry(index: bv32) returns (value: bv32)
    ensures value == BitSteps(8, index)
  {
    value := index;
    var bit := 0;
    while bit < 8
      invariant bit <= 8 && value == BitSteps(bit, index)
    {
      assert BitSteps(bit + 1, index) == BitStep(BitSteps(bit, index));
      value := if Odd(value) then Xor(Half(value), POLYNOMIAL) else Half(value);
      bit := bit + 1;
    }
  }

  /** The table-driven checksum is the bit-by-bit CRC-32, for every byte string. */
  method Compute(bytes: seq<Byte>) returns (r: bv32)
    ensures r == Crc32(bytes)
  {
    hide BitSteps, Xor, Low, High, Widened, Complement;
    var crc: bv32 := START;
    var i := 0;
    while i < |bytes|
      invariant i <= |bytes| && crc == Serial(START, bytes[..i])
    {
      var mixed := Xor(crc, Widened(bytes[i]));
      var entry := TableEntry(Low(mixed));
      assert bytes[..i + 1][..i] == bytes[..i];
      TableStep(mixed);
      HighOfMixed(crc, bytes[i]);
      crc := Xor(High(crc), entry);
      i := i + 1;
    }
    assert bytes[..i] == bytes;
    return Complement(crc);
  }

  // ------------------------------------------------------------------------
  // Detection of a changed byte
  // ------------------------------------------------------------------------

  /** Different registers stay different over the same bytes. */
  lemma {:induction false} SerialInjective(a: bv32, b: bv32, bytes: seq<Byte>)
    requires a != b
    ensures Serial(a, bytes) != Serial(b, bytes)
    decreases |bytes|
  {
    hide BitSteps, Xor, Widened;
    if bytes != [] {
      var n := |bytes| - 1;
      SerialInjective(a, b, bytes[..n]);
      var x, y, last := Serial(a, bytes[..n]), Serial(b, bytes[..n]), Widened(bytes[n]);
      XorInjective(x, y, last);
      StepsInjective(8, Xor(x, last), Xor(y, last));
    }
  }

  lemma WidenedInjective(a: Byte, b: Byte)
    ensures Widened(a) == Widened(b) ==> a == b
  {
  }

  lemma {:induction false} SerialSplit(crc: bv32, a: seq<Byte>, b: seq<Byte>)
    ensures Serial(crc, a + b) == Serial(Serial(crc, a), b)
    decreases |b|
  {
    hide BitSteps, Xor, Widened;
    if b == [] {
      assert a + b == a;
    } else {
      assert (a + b)[..|a + b| - 1] == a + b[..|b| - 1];
      SerialSplit(crc, a, b[..|b| - 1]);
    }
  }

  /** Strings of equal length that differ in exactly one byte have different checksums. */
  lemma OneByteDetected(bytes: seq<Byte>, i: nat, b: Byte)
    requires i < |bytes| && bytes[i] != b
    ensures Crc32(bytes[i := b]) != Crc32(bytes)
  {
    var before, after := bytes[..i], bytes[i + 1..];
    assert bytes == before + ([bytes[i]] + after);
    assert bytes[i := b] == before + ([b] + after);
    var s := Serial(START, before);
    hide BitSteps, Serial, Xor, Widened, Complement;
    SerialSplit(START, before, [bytes[i]] + after);
    SerialSplit(START, before, [b] + after);
    SerialSplit(s, [bytes[i]], after);
    SerialSplit(s, [b], after);
    OneByteDiffers(s, bytes[i], b);
    SerialInjective(Serial(s, [bytes[i]]), Serial(s, [b]), after);
    ComplementInjective(Serial(START, bytes), Serial(START, bytes[i := b]));
  }

  lemma OneByteDiffers(crc: bv32, a: Byte, b: Byte)
    requires a != b
    ensures Serial(crc, [a]) != Serial(crc, [b])
  {
    assert [a][..0] == [] && [b][..0] == [];
    hide BitSteps, Xor, Widened;
    WidenedInjective(a, b);
    XorInjective(Widened(a), Widened(b), crc);
    StepsInjective(8, Xor(crc, Widened(a)), Xor(crc, Widened(b)));
  }

  lemma ComplementInjective(a: bv32, b: bv32)
    ensures Complement(a) == Complement(b) ==> a == b
  {
  }
}
