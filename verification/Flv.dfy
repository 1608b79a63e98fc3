/** Byte layout of FLV (Annex E of the Adobe Flash Video File Format Specification 10.1) as the
  * server prints it, edits it and classifies it. Shifts and casts of unsigned integers are
  * written as division and remainder; the nibble masks are related to their bit form below. */
module Flv {
  import opened Wrappers

  type Byte = x: int | 0 <= x < 0x100
  type U32 = x: int | 0 <= x < 0x1_0000_0000
  type Tag = seq<Byte>

  const TAG_AUDIO: Byte := 8
  const TAG_VIDEO: Byte := 9
  const FILE_HEADER_SIZE := 13
  const TAG_HEADER_SIZE := 11
  const MAX_PAYLOAD := 0x100_0000

  function Byte0(n: nat): Byte { n % 0x100 }
  function Byte1(n: nat): Byte { n / 0x100 % 0x100 }
  function Byte2(n: nat): Byte { n / 0x1_0000 % 0x100 }
  function Byte3(n: nat): Byte { n / 0x100_0000 % 0x100 }

  /** The number whose bytes, most significant first, are the arguments. */
  function JoinBytes(b3: nat, b2: nat, b1: nat, b0: nat): nat {
    b3 * 0x100_0000 + b2 * 0x1_0000 + b1 * 0x100 + b0
  }

  /** Splitting a number into bytes and joining them again keeps its low 32 (or 24) bits. */
  lemma JoinSplit(n: nat)
    ensures Join(Split(n)) == n % 0x1_0000_0000
    ensures Join(Split(n).(b3 := 0)) == n % 0x100_0000
  {
    SplitLow(n, 0x100);
    SplitLow(n, 0x1_0000);
    SplitLow(n, 0x100_0000);
  }

  lemma SplitJoin(w: Word)
    ensures Split(Join(w)) == w
  {
    var n := Join(w);
    assert n / 0x100 == w.b3 * 0x1_0000 + w.b2 * 0x100 + w.b1;
    assert n / 0x1_0000 == w.b3 * 0x100 + w.b2;
    assert n / 0x100_0000 == w.b3;
  }

  lemma SplitLow(n: nat, m: nat)
    requires m == 0x100 || m == 0x1_0000 || m == 0x100_0000
    ensures n % (m * 0x100) == n / m % 0x100 * m + n % m
  {
  }

  // ---------- printing ----------

  const FILE_HEADER: seq<Byte> := [0x46, 0x4C, 0x56, 1, 0x05, 0, 0, 0, 9, 0, 0, 0, 0]

  /** What one tag means: its type, its payload and its timestamp. */
  datatype Packet = Packet(tagType: Byte, data: seq<Byte>, timestamp: U32)

  /** The tag that carries a packet: 11 header bytes, the payload, and the size of the tag again.
    * The size is computed in 32 bits and only its low 24 bits fit in the header. */
  function Encode(p: Packet): Tag {
    var size := DataSize(p.data);
    var total: U32 := (TAG_HEADER_SIZE + size) % 0x1_0000_0000;
    Assemble(p.tagType, Split(size), Split(p.timestamp), p.data, Split(total))
  }

  function DataSize(data: seq<Byte>): U32 { |data| % 0x1_0000_0000 }

  /** A number as four bytes, most significant first. */
  datatype Word = Word(b3: Byte, b2: Byte, b1: Byte, b0: Byte)

  function Split(n: nat): Word { Word(Byte3(n), Byte2(n), Byte1(n), Byte0(n)) }

  function Join(w: Word): nat { JoinBytes(w.b3, w.b2, w.b1, w.b0) }

  function Header(tagType: Byte, size: Word, ts: Word): seq<Byte> {
    [tagType, size.b2, size.b1, size.b0, ts.b2, ts.b1, ts.b0, ts.b3, 0, 0, 0]
  }

  function Assemble(tagType: Byte, size: Word, ts: Word, data: seq<Byte>, total: Word): Tag {
    Header(tagType, size, ts) + data + [total.b3, total.b2, total.b1, total.b0]
  }

  method FlvHeader() returns (buf: seq<Byte>)
    ensures buf == FILE_HEADER && |buf| == FILE_HEADER_SIZE
    ensures buf == [70, 76, 86, 1, 5, 0, 0, 0, 9, 0, 0, 0, 0]
  {
    buf := [0x46, 0x4C, 0x56];
    buf := buf + [1];
    buf := buf + [0x05];
    buf := buf + [0, 0, 0, 9];
    buf := buf + [0, 0, 0, 0];
  }

  method FlvTag(tagType: Byte, data: seq<Byte>, timestampMs: U32) returns (buf: Tag)
    ensures buf == Encode(Packet(tagType, data, timestampMs))
  {
    var dataSize := DataSize(data);
    var totalTagSize: U32 := (TAG_HEADER_SIZE + dataSize) % 0x1_0000_0000;
    buf := [tagType];
    buf := buf + [Byte2(dataSize)];
    buf := buf + [Byte1(dataSize)];
    buf := buf + [Byte0(dataSize)];
    buf := buf + [Byte2(timestampMs)];
    buf := buf + [Byte1(timestampMs)];
    buf := buf + [Byte0(timestampMs)];
    buf := buf + [Byte3(timestampMs)];
    buf := buf + [0];
    buf := buf + [0];
    buf := buf + [0];
    assert buf == Header(tagType, Split(dataSize), Split(timestampMs));
    buf := buf + data;
    buf := buf + [Byte3(totalTagSize), Byte2(totalTagSize), Byte1(totalTagSize), Byte0(totalTagSize)];
  }

  // ---------- reading and rewriting the timestamp ----------

  function ReadTimestamp(tag: Tag): (r: Option<U32>)
    ensures r.Some? <==> |tag| >= 8
  {
    if |tag| < 8 then None
    else Some(JoinBytes(tag[7], tag[4], tag[5], tag[6]))
  }

  function Rewritten(tag: Tag, ts: U32): Tag { WithTimestamp(tag, Split(ts)) }

  function WithTimestamp(tag: Tag, ts: Word): Tag {
    if |tag| < 8 then tag else tag[4 := ts.b2][5 := ts.b1][6 := ts.b0][7 := ts.b3]
  }

  method RewriteTagTimestamp(tag: Tag, newTs: U32) returns (frozen: Tag)
    ensures frozen == Rewritten(tag, newTs)
  {
    var buf := new Byte[|tag|](i requires 0 <= i < |tag| => tag[i]);
    if buf.Length >= 8 {
      buf[4] := Byte2(newTs);
      buf[5] := Byte1(newTs);
      buf[6] := Byte0(newTs);
      buf[7] := Byte3(newTs);
    }
    frozen := buf[..];
    assert |frozen| == |Rewritten(tag, newTs)|;
  }

  lemma SetBytes(tag: Tag, a: Word, b: Word)
    ensures ReadTimestamp(WithTimestamp(tag, a)) == if |tag| >= 8 then Some(Join(a)) else None
    ensures WithTimestamp(WithTimestamp(tag, a), b) == WithTimestamp(tag, b)
    ensures |tag| >= 8 ==> WithTimestamp(tag, Word(tag[7], tag[4], tag[5], tag[6])) == tag
    ensures |WithTimestamp(tag, a)| == |tag|
    ensures forall i | 0 <= i < |tag| && !(4 <= i < 8) :: WithTimestamp(tag, a)[i] == tag[i]
  {
  }

  /** Rewriting sets exactly the timestamp: it is read back, a later rewrite hides an earlier one,
    * writing the old timestamp changes nothing, and no other byte moves. */
  lemma RewriteSetsTimestampOnly(tag: Tag, a: U32, b: U32)
    ensures ReadTimestamp(Rewritten(tag, a)) == if |tag| >= 8 then Some(a) else None
    ensures Rewritten(Rewritten(tag, a), b) == Rewritten(tag, b)
    ensures |Rewritten(tag, a)| == |tag|
    ensures forall i | 0 <= i < |tag| && !(4 <= i < 8) :: Rewritten(tag, a)[i] == tag[i]
  {
    SetBytes(tag, Split(a), Split(b));
    JoinSplit(a);
  }

  lemma RewriteToSameTimestamp(tag: Tag)
    requires |tag| >= 8
    ensures Rewritten(tag, ReadTimestamp(tag).value) == tag
  {
    SplitJoin(Word(tag[7], tag[4], tag[5], tag[6]));
  }

  // ---------- framing ----------

  /** The payload size a reader takes from the first bytes of a tag. */
  function PayloadSize(s: seq<Byte>): nat
    requires |s| >= 4
  {
    JoinBytes(0, s[1], s[2], s[3])
  }

  /** A tag whose length is what its own header announces. */
  predicate Framed(tag: Tag) {
    |tag| >= TAG_HEADER_SIZE + 4 && |tag| == TAG_HEADER_SIZE + PayloadSize(tag) + 4
  }

  function Decode(tag: Tag): Packet
    requires Framed(tag)
  {
    Packet(tag[0], tag[TAG_HEADER_SIZE..|tag| - 4], ReadTimestamp(tag).value)
  }

  lemma LowBits(n: nat)
    ensures n % 0x1_0000_0000 % 0x100_0000 == n % 0x100_0000 <= n
    ensures n % 0x100_0000 == n <==> n < 0x100_0000
  {
  }

  lemma Parts(tagType: Byte, size: Word, ts: Word, data: seq<Byte>, total: Word)
    ensures var t := Assemble(tagType, size, ts, data, total);
            && |t| == TAG_HEADER_SIZE + |data| + 4
            && t[..TAG_HEADER_SIZE] == Header(tagType, size, ts)
            && t[0] == tagType
            && PayloadSize(t) == Join(size.(b3 := 0))
            && ReadTimestamp(t) == Some(Join(ts))
            && t[TAG_HEADER_SIZE..|t| - 4] == data
            && t[TAG_HEADER_SIZE + |data|..] == [total.b3, total.b2, total.b1, total.b0]
  {
  }

  /** The header of a printed tag announces the payload size modulo 2^24. */
  lemma SizeField(p: Packet)
    ensures PayloadSize(Encode(p)) == |p.data| % MAX_PAYLOAD
  {
    var size := DataSize(p.data);
    Parts(p.tagType, Split(size), Split(p.timestamp), p.data, Split((TAG_HEADER_SIZE + size) % 0x1_0000_0000));
    JoinSplit(size);
    LowBits(|p.data|);
  }

  lemma TimestampField(p: Packet)
    ensures ReadTimestamp(Encode(p)) == Some(p.timestamp)
  {
    hide *;
    EncodeIsAssembled(p);
    Parts(p.tagType, Split(DataSize(p.data)), Split(p.timestamp), p.data,
        Split((TAG_HEADER_SIZE + DataSize(p.data)) % 0x1_0000_0000));
    JoinSplit(p.timestamp);
  }

  lemma EncodeIsAssembled(p: Packet)
    ensures Encode(p) == Assemble(p.tagType, Split(DataSize(p.data)), Split(p.timestamp), p.data,
        Split((TAG_HEADER_SIZE + DataSize(p.data)) % 0x1_0000_0000))
  {
  }

  lemma PayloadField(p: Packet)
    ensures |Encode(p)| == TAG_HEADER_SIZE + |p.data| + 4
    ensures Encode(p)[0] == p.tagType
    ensures Encode(p)[TAG_HEADER_SIZE..|Encode(p)| - 4] == p.data
  {
  }

  /** Printing frames the tag exactly when the payload size fits in 24 bits. */
  lemma EncodeFramesExactly(p: Packet)
    ensures Framed(Encode(p)) <==> |p.data| < MAX_PAYLOAD
    ensures PayloadSize(Encode(p)) <= |p.data|
  {
    SizeField(p);
    LowBits(|p.data|);
  }

  /** Nothing of a packet is lost in its tag. */
  lemma DecodeEncode(p: Packet)
    requires |p.data| < MAX_PAYLOAD
    ensures Framed(Encode(p)) && Decode(Encode(p)) == p
  {
    EncodeFramesExactly(p);
    PayloadField(p);
    TimestampField(p);
  }

  lemma RewriteKeepsFraming(tag: Tag, ts: U32)
    ensures Framed(Rewritten(tag, ts)) <==> Framed(tag)
    ensures Framed(tag) ==> Decode(Rewritten(tag, ts)) == Decode(tag).(timestamp := ts)
  {
    RewriteSetsTimestampOnly(tag, ts, ts);
    if Framed(tag) {
      assert Decode(Rewritten(tag, ts)).data == Decode(tag).data;
    }
  }

  // ---------- the router's classification ----------

  predicate IsVideo(tag: Tag) { |tag| > 0 && tag[0] == TAG_VIDEO }

  predicate IsAudio(tag: Tag) { |tag| > 0 && tag[0] == TAG_AUDIO }

  predicate IsVideoKeyframe(tag: Tag) {
    |tag| >= 13 && tag[0] == TAG_VIDEO && tag[11] / 16 == 1 && tag[12] != 0
  }

  predicate IsSequenceHeader(tag: Tag) {
    |tag| >= 13 && (tag[0] == TAG_VIDEO || tag[0] == TAG_AUDIO) && tag[12] == 0
  }

  predicate IsVideoHeader(tag: Tag) { IsVideo(tag) && IsSequenceHeader(tag) }

  predicate IsAudioHeader(tag: Tag) { IsAudio(tag) && IsSequenceHeader(tag) }

  /** A video tag that carries a picture. */
  predicate IsFrame(tag: Tag) { IsVideo(tag) && !IsSequenceHeader(tag) }

  /** A picture that needs an earlier one to be decoded. */
  predicate IsInterFrame(tag: Tag) { IsFrame(tag) && !IsVideoKeyframe(tag) }

  /** `b & 0xF0 == 0x10` in the router and `(b >> 4) & 0x0F == 1` in the readers both ask for 1 in the high nibble. */
  lemma HighNibbleBits(b: Byte)
    ensures ((b as bv8) & 0xF0 == 0x10) <==> b / 16 == 1
    ensures ((((b as bv8) >> 4) & 0x0F) == 1) <==> b / 16 == 1
  {
  }

  lemma RewriteKeepsClass(tag: Tag, ts: U32)
    ensures IsVideo(Rewritten(tag, ts)) == IsVideo(tag)
    ensures IsAudio(Rewritten(tag, ts)) == IsAudio(tag)
    ensures IsVideoKeyframe(Rewritten(tag, ts)) == IsVideoKeyframe(tag)
    ensures IsSequenceHeader(Rewritten(tag, ts)) == IsSequenceHeader(tag)
  {
    RewriteSetsTimestampOnly(tag, ts, ts);
  }
}
