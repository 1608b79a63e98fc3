/** The FLV layout and the tag classes byte by byte, in numbers: file header, tag header, trailer, timestamps, and the
  * bits that the router and the readers look at. */
module FlvBytes {
  import opened Wrappers
  import opened Flv
  import opened TagReader

  /** "FLV", version 1, audio and video, a header of nine bytes, and a zero trailer. */
  lemma FileHeaderBytes()
    ensures FILE_HEADER == [70, 76, 86, 1, 5, 0, 0, 0, 9, 0, 0, 0, 0] && |FILE_HEADER| == FILE_HEADER_SIZE == 13
  {
  }

  /** The bytes of a number, most significant first. */
  predicate BigEndian(b3: nat, b2: nat, b1: nat, b0: nat, n: nat) {
    n == 16777216 * b3 + 65536 * b2 + 256 * b1 + b0
  }

  lemma SplitIsBigEndian(n: nat)
    ensures var w := Flv.Split(n); BigEndian(w.b3, w.b2, w.b1, w.b0, n % 0x1_0000_0000)
    ensures var w := Flv.Split(n); BigEndian(0, w.b2, w.b1, w.b0, n % 0x100_0000)
  {
    hide Flv.Split;
    JoinSplit(n);
  }

  /** Where everything is in a printed tag: type, size in three bytes, the low three bytes of the timestamp and then the
    * high one, a zero stream number, the payload, and the size of the tag without its trailer. */
  lemma TagBytes(p: Packet)
    ensures var t := Encode(p);
            var n := 11 + |p.data|;
            && |t| == n + 4 && t[0] == p.tagType
            && BigEndian(0, t[1], t[2], t[3], |p.data| % 0x100_0000)
            && BigEndian(t[7], t[4], t[5], t[6], p.timestamp)
            && t[8] == t[9] == t[10] == 0 && t[11..n] == p.data
            && BigEndian(t[n], t[n + 1], t[n + 2], t[n + 3], n % 0x1_0000_0000)
  {
    hide Flv.Split, Encode, BigEndian, Assemble;
    var size, n := DataSize(p.data), 11 + |p.data|;
    var total := (TAG_HEADER_SIZE + size) % 0x1_0000_0000;
    EncodeIsAssembled(p);
    BytesAssembled(p.tagType, Flv.Split(size), Flv.Split(p.timestamp), p.data, Flv.Split(total));
    SplitIsBigEndian(size);
    SplitIsBigEndian(p.timestamp);
    SplitIsBigEndian(total);
    SizesModulo(|p.data|);
  }

  lemma BytesAssembled(tagType: Byte, size: Word, ts: Word, data: seq<Byte>, total: Word)
    ensures var t := Assemble(tagType, size, ts, data, total);
            var n := 11 + |data|;
            && |t| == n + 4 && t[0] == tagType && t[1] == size.b2 && t[2] == size.b1 && t[3] == size.b0
            && t[4] == ts.b2 && t[5] == ts.b1 && t[6] == ts.b0 && t[7] == ts.b3 && t[8] == t[9] == t[10] == 0
            && t[11..n] == data && t[n] == total.b3 && t[n + 1] == total.b2 && t[n + 2] == total.b1
                  && t[n + 3] == total.b0
  {
  }

  lemma SizesModulo(n: nat)
    ensures n % 0x1_0000_0000 % 0x100_0000 == n % 0x100_0000
    ensures (11 + n % 0x1_0000_0000) % 0x1_0000_0000 % 0x1_0000_0000 == (11 + n) % 0x1_0000_0000
  {
    LowBits(n);
    SameRemainder(11 + n % 0x1_0000_0000, n / 0x1_0000_0000);
  }

  lemma SameRemainder(r: nat, k: nat)
    ensures (r + 0x1_0000_0000 * k) % 0x1_0000_0000 == r % 0x1_0000_0000
  {
    var q, m := r / 0x1_0000_0000, r % 0x1_0000_0000;
    assert r + 0x1_0000_0000 * k == 0x1_0000_0000 * (q + k) + m;
  }

  /** What readers take from the bytes: the size, the length of the first tag, the timestamp. */
  lemma BytesRead(s: seq<Byte>)
    ensures |s| >= 11 ==> BigEndian(0, s[1], s[2], s[3], PayloadSize(s)) && TagLength(s) == 11 + PayloadSize(s) + 4
    ensures |s| >= 8 ==> ReadTimestamp(s).Some? && BigEndian(s[7], s[4], s[5], s[6], ReadTimestamp(s).value)
  {
  }

  /** Rewriting puts the new timestamp's bytes where readers take them from. */
  lemma BytesRewritten(tag: Tag, ts: U32)
    requires |tag| >= 8
    ensures var t := Rewritten(tag, ts);
            && |t| == |tag| && BigEndian(t[7], t[4], t[5], t[6], ts)
            && forall i | 0 <= i < |t| && !(4 <= i < 8) :: t[i] == tag[i]
  {
    RewriteSetsTimestampOnly(tag, ts, ts);
    BytesRead(Rewritten(tag, ts));
  }

  // ---------- classes ----------

  /** The router's tests in the bits of the tag: its first byte, the high nibble of byte 11 and byte 12. */
  lemma RouterBits(tag: Tag)
    ensures IsVideo(tag) <==> |tag| >= 1 && tag[0] == 9
    ensures IsAudio(tag) <==> |tag| >= 1 && tag[0] == 8
    ensures IsVideoKeyframe(tag) <==> |tag| >= 13 && tag[0] == 9 && (tag[11] as bv8) & 0xF0 == 0x10 && tag[12] != 0
    ensures IsSequenceHeader(tag) <==> |tag| >= 13 && (tag[0] == 9 || tag[0] == 8) && tag[12] == 0
    ensures IsFrame(tag) <==> |tag| >= 1 && tag[0] == 9 && !(|tag| >= 13 && tag[12] == 0)
    ensures IsInterFrame(tag) <==> IsFrame(tag) && !(|tag| >= 13 && (tag[11] as bv8) & 0xF0 == 0x10)
  {
    if |tag| >= 13 {
      HighNibbleBits(tag[11]);
    }
  }

  /** The readers' tests in the bits of the payload: the second byte tells a header, the high nibble of the first a
    * keyframe; with one byte there is no header, with none there is nothing. */
  lemma ReaderBits(tag: Tag)
    requires Framed(tag)
    ensures var data := tag[11..|tag| - 4];
            && (ReaderKind(tag) == VideoHeader <==> tag[0] == 9 && |data| >= 2 && data[1] == 0)
            && (ReaderKind(tag) == AudioHeader <==> tag[0] == 8 && |data| >= 2 && data[1] == 0)
            && (ReaderKind(tag) == Keyframe <==>
                  tag[0] == 9 && |data| >= 1 && !(|data| >= 2 && data[1] == 0) && ((data[0] as bv8) >> 4) & 0x0F == 1)
  {
    if PayloadSize(tag) >= 1 {
      HighNibbleBits(tag[11]);
    }
  }
}
