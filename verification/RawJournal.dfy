/** The body of the raw journal (src/journal/raw_journal.cpp) over an abstract byte sequence:
    every record is framed by its size and its checksum. */
module RawJournal {
  import opened FixedPoint
  import opened JournalCodec
  import Checksum

  const MINIMUM_RECORD := 53
  const MAXIMUM_RECORD := MAXIMUM_PAYLOAD + MAXIMUM_CHANNEL + 80

  datatype Read = Got(record: Record) | EndOfJournal | Bad(error: Error)

  // ------------------------------------------------------------------------
  // Frames
  // ------------------------------------------------------------------------

  function Framed(body: seq<Byte>): seq<Byte> {
    SizeBytes(|body|) + body + LE32(Checksum.Crc32(body))
  }

  function Frame(r: Record): seq<Byte> {
    Framed(Encoded(r))
  }

  function Body(rs: seq<Record>): seq<Byte> {
    if rs == [] then [] else Frame(rs[0]) + Body(rs[1..])
  }

  predicate AllValid(rs: seq<Record>) {
    forall i :: 0 <= i < |rs| ==> ValidRecord(rs[i])
  }

  /** What reading finds at the start of `data`. */
  function ReadOne(data: seq<Byte>): Read {
    if data == [] then EndOfJournal
    else if |data| < 4 then Bad(TruncatedRecord)
    else
      var n := FromSize(data[..4]);
      if n < MINIMUM_RECORD then Bad(InvalidRecord)
      else if n > MAXIMUM_RECORD then Bad(RecordTooLarge)
      else if |data| < 8 + n then Bad(TruncatedRecord)
      else if FromLE32(data[4 + n..8 + n]) != Checksum.Crc32(data[4..4 + n]) then Bad(ChecksumMismatch)
      else
        var d := Decode(data[4..4 + n]);
        if d.Ok? then Got(d.record) else Bad(d.error)
  }

  /** The length of the frame at the start of `data`. */
  function FrameLength(data: seq<Byte>): nat
    requires ReadOne(data).Got?
  {
    8 + FromSize(data[..4])
  }

  /** Reads to the first end or error. */
  function ReadAll(data: seq<Byte>): (r: (seq<Record>, Read))
    ensures !r.1.Got?
    decreases |data|
  {
    var first := ReadOne(data);
    if !first.Got? then ([], first)
    else
      var rest := ReadAll(data[FrameLength(data)..]);
      ([first.record] + rest.0, rest.1)
  }

  // ------------------------------------------------------------------------
  // Reading back
  // ------------------------------------------------------------------------

  lemma FrameParts(body: seq<Byte>, tail: seq<Byte>)
    ensures var n, s := |body|, Framed(body) + tail;
      && |Framed(body)| == n + 8 && s[..4] == SizeBytes(n) && s[4..4 + n] == body
      && s[4 + n..8 + n] == LE32(Checksum.Crc32(body)) && s[8 + n..] == tail
  {
    hide SizeBytes, LE32;
  }

  /** A framed record reads back, whatever follows it. */
  lemma FrameReads(r: Record, tail: seq<Byte>)
    requires ValidRecord(r)
    ensures ReadOne(Frame(r) + tail) == Got(r) && FrameLength(Frame(r) + tail) == |Frame(r)|
    ensures (Frame(r) + tail)[|Frame(r)|..] == tail
  {
    hide SizeBytes, FromSize, LE32, FromLE32, Encoded, Decode;
    EncodedSize(r);
    DecodeInvertsEncode(r);
    FrameParts(Encoded(r), tail);
    ReadSize(|Encoded(r)|);
    Read32(Checksum.Crc32(Encoded(r)));
    hide Framed;
  }

  /** A frame that is cut anywhere but at its start reads as truncated. */
  lemma CutFrame(r: Record, c: nat)
    requires ValidRecord(r) && 0 < c < |Frame(r)|
    ensures ReadOne(Frame(r)[..c]) == Bad(TruncatedRecord)
  {
    hide SizeBytes, FromSize, LE32, Encoded, Decode;
    EncodedSize(r);
    FrameParts(Encoded(r), []);
    ReadSize(|Encoded(r)|);
    assert Frame(r) + [] == Frame(r);
    if c >= 4 {
      assert Frame(r)[..c][..4] == Frame(r)[..4];
    }
  }

  /** How many whole frames the first c bytes hold. */
  function WholeFrames(rs: seq<Record>, c: nat): (k: nat)
    ensures k <= |rs|
  {
    if rs == [] || c < |Frame(rs[0])| then 0 else 1 + WholeFrames(rs[1..], c - |Frame(rs[0])|)
  }

  /** The whole frames are those that end by c: no shorter prefix misses one, and the next does
      not fit. */
  lemma {:induction false} WholeFramesMeaning(rs: seq<Record>, c: nat)
    ensures var k := WholeFrames(rs, c);
      |Body(rs[..k])| <= c && (k < |rs| ==> c < |Body(rs[..k])| + |Frame(rs[k])|)
    decreases rs
  {
    hide Frame;
    if rs != [] && c >= |Frame(rs[0])| {
      WholeFramesMeaning(rs[1..], c - |Frame(rs[0])|);
      var k := WholeFrames(rs[1..], c - |Frame(rs[0])|);
      assert rs[..k + 1][1..] == rs[1..][..k];
    }
  }

  /** Any cut of a valid journal reads as exactly the whole frames before it; the rest is the end
      of the journal on a boundary, and a truncated record anywhere else. */
  lemma {:induction false} CutReads(rs: seq<Record>, c: nat)
    requires AllValid(rs) && c <= |Body(rs)|
    ensures var k := WholeFrames(rs, c);
      ReadAll(Body(rs)[..c]) == (rs[..k], if c == |Body(rs[..k])| then EndOfJournal else Bad(TruncatedRecord))
    decreases rs
  {
    hide Frame, ReadOne, Decode, FromSize;
    NothingLeft();
    if c == 0 {
      assert Body(rs)[..c] == [];
      NoFrames(rs);
    } else {
      var f, n := Frame(rs[0]), |Frame(rs[0])|;
      if c < n {
        assert Body(rs)[..c] == f[..c];
        CutFrame(rs[0], c);
      } else {
        var tail := Body(rs[1..])[..c - n];
        assert Body(rs)[..c] == f + tail;
        FrameReads(rs[0], tail);
        CutReads(rs[1..], c - n);
        var k := WholeFrames(rs[1..], c - n);
        assert rs[..k + 1] == [rs[0]] + rs[1..][..k];
        assert rs[..k + 1][1..] == rs[1..][..k];
      }
    }
  }

  lemma NothingLeft()
    ensures ReadAll([]) == ([], EndOfJournal)
  {
  }

  lemma NoFrames(rs: seq<Record>)
    requires AllValid(rs)
    ensures WholeFrames(rs, 0) == 0 && Body(rs[..0]) == []
  {
    hide LE32, Encoded;
    if rs != [] {
      FrameParts(Encoded(rs[0]), []);
      assert Frame(rs[0]) + [] == Frame(rs[0]);
    }
  }

  /** Writing any list of valid records and reading the bytes back yields exactly that list. */
  lemma ReadsBack(rs: seq<Record>)
    requires AllValid(rs)
    ensures ReadAll(Body(rs)) == (rs, EndOfJournal)
  {
    hide Frame, ReadAll;
    CutReads(rs, |Body(rs)|);
    assert Body(rs)[..|Body(rs)|] == Body(rs);
    AllFrames(rs);
    assert rs[..|rs|] == rs;
  }

  lemma {:induction false} AllFrames(rs: seq<Record>)
    ensures WholeFrames(rs, |Body(rs)|) == |rs|
    decreases rs
  {
    hide Frame;
    if rs != [] {
      AllFrames(rs[1..]);
    }
  }

  /** A frame whose body differs from the written one in exactly one byte never reads as a
      record: the checksum gives it away. */
  lemma OneByteReported(body: seq<Byte>, i: nat, b: Byte, tail: seq<Byte>)
    requires MINIMUM_RECORD <= |body| <= MAXIMUM_RECORD && i < |body| && body[i] != b
    ensures ReadOne(SizeBytes(|body|) + body[i := b] + LE32(Checksum.Crc32(body)) + tail) == Bad(ChecksumMismatch)
  {
    hide SizeBytes, FromSize, LE32, FromLE32, Decode, Checksum.Crc32;
    var changed, n := body[i := b], |body|;
    var s := SizeBytes(n) + changed + LE32(Checksum.Crc32(body)) + tail;
    assert s[..4] == SizeBytes(n) && s[4..4 + n] == changed && s[4 + n..8 + n] == LE32(Checksum.Crc32(body));
    ReadSize(n);
    Read32(Checksum.Crc32(body));
    Checksum.OneByteDetected(body, i, b);
  }

  // ------------------------------------------------------------------------
  // Writer and reader
  // ------------------------------------------------------------------------

  class RawJournalWriter {
    var stream: seq<Byte>
    var recordsWritten: nat
    /** Everything appended so far. */
    ghost var records: seq<Record>

    ghost predicate Valid()
      reads this
    {
      AllValid(records) && stream == Body(records) && recordsWritten == |records|
    }

    constructor ()
      ensures Valid() && records == []
    {
      stream, recordsWritten, records := [], 0, [];
    }

    /** Appends one frame, or rejects an invalid record and writes nothing. A valid record is
        never too large. */
    method Append(r: Record) returns (error: Option<Error>)
      requires Valid()
      modifies this
      ensures Valid()
      ensures error == if ValidRecord(r) then None else Some(InvalidRecord)
      ensures records == if error.None? then old(records) + [r] else old(records)
      ensures ReadAll(stream) == (records, EndOfJournal)
    {
      hide Encoded, Frame, LE32, SizeBytes, Decode, ReadAll;
      ReadsBack(records);
      var bytes;
      error, bytes := EncodeInto(r);
      if error.Some? {
        return;
      }
      EncodedSize(r);
      if |bytes| > MAXIMUM_RECORD || |bytes| > 0xffff_ffff {
        return Some(RecordTooLarge);
      }
      var sum := Checksum.Compute(bytes);
      ghost var before := stream;
      stream := stream + SizeBytes(|bytes|);
      stream := stream + bytes;
      stream := stream + LE32(sum);
      FrameAppended(before, r, stream);
      BodyAppend(records, r);
      recordsWritten := recordsWritten + 1;
      records := records + [r];
      ReadsBack(records);
      return None;
    }
  }

  lemma FrameAppended(before: seq<Byte>, r: Record, after: seq<Byte>)
    requires after == before + SizeBytes(|Encoded(r)|) + Encoded(r) + LE32(Checksum.Crc32(Encoded(r)))
    ensures after == before + Frame(r)
  {
    hide SizeBytes, Encoded, LE32;
  }

  lemma {:induction false} BodyAppend(rs: seq<Record>, r: Record)
    ensures Body(rs + [r]) == Body(rs) + Frame(r)
    decreases rs
  {
    hide Frame;
    if rs == [] {
      assert rs + [r] == [r];
      assert [r][1..] == [];
    } else {
      assert (rs + [r])[1..] == rs[1..] + [r];
      BodyAppend(rs[1..], r);
    }
  }

  class RawJournalReader {
    const data: seq<Byte>
    var position: nat
    var recordsRead: nat

    ghost predicate Valid()
      reads this
    {
      position <= |data|
    }

    constructor (data: seq<Byte>)
      ensures Valid() && this.data == data && position == 0 && recordsRead == 0
    {
      this.data, position, recordsRead := data, 0, 0;
    }

    /** As many bytes as asked for, or what is left. */
    method ReadBytes(n: nat) returns (s: seq<Byte>)
      requires Valid()
      modifies this`position
      ensures Valid() && position == old(position) + |s| && |s| == Min(n, |data| - old(position))
      ensures s == data[old(position)..position]
    {
      var size := Min(n, |data| - position);
      s := data[position..position + size];
      position := position + size;
    }

    /** Reads one frame: exactly what its bytes say, and on success one frame further. */
    method ReadNext() returns (r: Read)
      requires Valid()
      modifies this
      ensures Valid() && r == ReadOne(data[old(position)..])
      ensures recordsRead == old(recordsRead) + (if r.Got? then 1 else 0)
      ensures r.Got? ==> position == old(position) + FrameLength(data[old(position)..])
    {
      hide Decode, FromSize, FromLE32, Checksum.Crc32;
      ghost var at := position;
      var sizeBytes := ReadBytes(4);
      if |sizeBytes| == 0 {
        return EndOfJournal;
      }
      if |sizeBytes| != 4 {
        return Bad(TruncatedRecord);
      }
      TailSlice(data, at, 0, 4);
      assert data[at..][..4] == data[at..][0..4];
      var n := FromSize(sizeBytes);
      if n < MINIMUM_RECORD {
        return Bad(InvalidRecord);
      }
      if n > MAXIMUM_RECORD {
        return Bad(RecordTooLarge);
      }
      r := ReadBody(n, at);
    }

    /** The record of a frame whose size has been read, and its checksum. */
    method ReadBody(n: nat, ghost at: nat) returns (r: Read)
      requires Valid() && position == at + 4 && n == FromSize(data[at..][..4]) && MINIMUM_RECORD <= n <= MAXIMUM_RECORD
      modifies this
      ensures Valid() && r == ReadOne(data[at..])
      ensures recordsRead == old(recordsRead) + (if r.Got? then 1 else 0)
      ensures r.Got? ==> position == at + FrameLength(data[at..])
    {
      hide Decode, FromSize, FromLE32, Checksum.Crc32;
      var bytes := ReadBytes(n);
      if |bytes| != n {
        return Bad(TruncatedRecord);
      }
      TailSlice(data, at, 4, 4 + n);
      var sum := ReadBytes(4);
      if |sum| != 4 {
        return Bad(TruncatedRecord);
      }
      TailSlice(data, at, 4 + n, 8 + n);
      var computed := Checksum.Compute(bytes);
      if FromLE32(sum) != computed {
        return Bad(ChecksumMismatch);
      }
      var decoded := DecodeRecord(bytes);
      if decoded.Ok? {
        recordsRead := recordsRead + 1;
        return Got(decoded.record);
      }
      return Bad(decoded.error);
    }
  }
}
