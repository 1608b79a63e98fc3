/** The reader that cuts an ffmpeg FLV stream into tags, publishes them on a relay and caches the
  * codec headers and the last keyframe. The same loop serves every kind of source. */
module TagReader {
  import opened Wrappers
  import opened Flv

  type SourceId = nat

  datatype SequenceHeaders = SequenceHeaders(video: Option<Tag>, audio: Option<Tag>, lastKeyframe: Option<Tag>)

  const NO_HEADERS := SequenceHeaders(None, None, None)

  // ---------- cutting a byte stream into tags ----------

  predicate HasTag(s: seq<Byte>) {
    |s| >= TAG_HEADER_SIZE && |s| >= TagLength(s)
  }

  function TagLength(s: seq<Byte>): nat
    requires |s| >= TAG_HEADER_SIZE
  {
    TAG_HEADER_SIZE + PayloadSize(s) + 4
  }

  /** The complete tags at the front of a byte sequence. */
  function Tags(s: seq<Byte>): seq<Tag>
    decreases |s|
  {
    if HasTag(s) then [s[..TagLength(s)]] + Tags(s[TagLength(s)..]) else []
  }

  /** What the reader publishes for a stream: nothing before the file header is complete. */
  function ReadBack(stream: seq<Byte>): seq<Tag> {
    if |stream| < FILE_HEADER_SIZE then [] else Tags(stream[FILE_HEADER_SIZE..])
  }

  function Concat(tags: seq<Tag>): seq<Byte> {
    if tags == [] then [] else tags[0] + Concat(tags[1..])
  }

  ghost predicate AllFramed(tags: seq<Tag>) {
    forall t | t in tags :: Framed(t)
  }

  lemma {:induction false} ConcatSplit(a: seq<Tag>, b: seq<Tag>)
    ensures Concat(a + b) == Concat(a) + Concat(b)
  {
    if a == [] {
      assert a + b == b;
    } else {
      assert (a + b)[1..] == a[1..] + b;
      ConcatSplit(a[1..], b);
    }
  }

  lemma FramedIsFirst(t: Tag, rest: seq<Byte>)
    requires Framed(t)
    ensures HasTag(t + rest) && TagLength(t + rest) == |t|
    ensures Tags(t + rest) == [t] + Tags(rest)
  {
    var s := t + rest;
    assert s[1] == t[1] && s[2] == t[2] && s[3] == t[3];
    assert s[..|t|] == t && s[|t|..] == rest;
  }

  /** Framed tags followed by anything are read back as those tags first. */
  lemma {:induction false} TagsOfConcat(tags: seq<Tag>, rest: seq<Byte>)
    requires AllFramed(tags)
    ensures Tags(Concat(tags) + rest) == tags + Tags(rest)
  {
    if tags == [] {
      assert Concat(tags) + rest == rest;
    } else {
      assert Concat(tags) + rest == tags[0] + (Concat(tags[1..]) + rest);
      FramedIsFirst(tags[0], Concat(tags[1..]) + rest);
      TagsOfConcat(tags[1..], rest);
    }
  }

  /** How many of the tags lie completely within the first k bytes. */
  function CompleteWithin(tags: seq<Tag>, k: nat): (n: nat)
    ensures n <= |tags|
    ensures |Concat(tags[..n])| <= k
    ensures n < |tags| ==> k < |Concat(tags[..n + 1])|
  {
    if tags == [] || k < |tags[0]| then
      assert tags != [] ==> tags[..1] == [tags[0]] && Concat(tags[..1]) == tags[0] + Concat([]);
      0
    else
      var m := CompleteWithin(tags[1..], k - |tags[0]|);
      assert tags[..m + 1][1..] == tags[1..][..m];
      assert m + 1 < |tags| ==> tags[..m + 2][1..] == tags[1..][..m + 1];
      m + 1
  }

  lemma CutTagIsNoTag(t: Tag, k: nat)
    requires Framed(t) && k < |t|
    ensures !HasTag(t[..k])
  {
  }

  lemma {:induction false} TruncatedTags(tags: seq<Tag>, k: nat)
    requires AllFramed(tags) && k <= |Concat(tags)|
    ensures Tags(Concat(tags)[..k]) == tags[..CompleteWithin(tags, k)]
  {
    if tags != [] {
      var t, rest := tags[0], Concat(tags[1..]);
      var cut := Concat(tags)[..k];
      if k < |t| {
        CutTagIsNoTag(t, k);
        assert cut == t[..k];
      } else {
        assert cut == t + rest[..k - |t|];
        FramedIsFirst(t, rest[..k - |t|]);
        TruncatedTags(tags[1..], k - |t|);
        assert tags[..CompleteWithin(tags, k)] == [t] + tags[1..][..CompleteWithin(tags[1..], k - |t|)];
      }
    }
  }

  lemma CutAfter(head: seq<Byte>, body: seq<Byte>, k: nat)
    requires k <= |body|
    ensures (head + body)[..|head| + k][|head|..] == body[..k]
  {
  }

  /** Cut a printed stream anywhere: the reader publishes exactly the tags that are complete. */
  lemma TruncatedStreamReadsBack(tags: seq<Tag>, k: nat)
    requires AllFramed(tags) && k <= |Concat(tags)|
    ensures ReadBack((FILE_HEADER + Concat(tags))[..FILE_HEADER_SIZE + k]) == tags[..CompleteWithin(tags, k)]
  {
    TruncatedTags(tags, k);
    CutAfter(FILE_HEADER, Concat(tags), k);
  }

  /** On any bytes at all, the published tags are framed and concatenate to the consumed prefix;
    * what is left over holds no further complete tag. */
  lemma {:induction false} TagsArePrefix(s: seq<Byte>)
    ensures AllFramed(Tags(s))
    ensures Concat(Tags(s)) <= s
    ensures !HasTag(s[|Concat(Tags(s))|..])
    decreases |s|
  {
    if HasTag(s) {
      var n := TagLength(s);
      var t, rest := s[..n], s[n..];
      TagsArePrefix(rest);
      assert Framed(t);
      assert Tags(s)[1..] == Tags(rest);
      assert Concat(Tags(s)) == t + Concat(Tags(rest));
      assert s == t + rest;
      assert s[|Concat(Tags(s))|..] == rest[|Concat(Tags(rest))|..];
    }
  }

  /** The same for the whole stream: after the 13 header bytes, the published tags are a prefix of the bytes. */
  lemma ReadBackIsPrefix(stream: seq<Byte>)
    ensures AllFramed(ReadBack(stream))
    ensures |stream| >= FILE_HEADER_SIZE ==> Concat(ReadBack(stream)) <= stream[FILE_HEADER_SIZE..]
    ensures |stream| >= FILE_HEADER_SIZE ==> !HasTag(stream[FILE_HEADER_SIZE + |Concat(ReadBack(stream))|..])
  {
    if |stream| >= FILE_HEADER_SIZE {
      TagsArePrefix(stream[FILE_HEADER_SIZE..]);
      assert stream[FILE_HEADER_SIZE..][|Concat(ReadBack(stream))|..]
          == stream[FILE_HEADER_SIZE + |Concat(ReadBack(stream))|..];
    }
  }

  // ---------- printer and parser undo each other ----------

  function EncodeAll(ps: seq<Packet>): (tags: seq<Tag>)
    ensures |tags| == |ps| && forall i | 0 <= i < |ps| :: tags[i] == Encode(ps[i])
  {
    seq(|ps|, i requires 0 <= i < |ps| => Encode(ps[i]))
  }

  function DecodeAll(tags: seq<Tag>): seq<Packet>
    requires forall t | t in tags :: Framed(t)
  {
    seq(|tags|, i requires 0 <= i < |tags| => Decode(tags[i]))
  }

  function Stream(ps: seq<Packet>): seq<Byte> { FILE_HEADER + Concat(EncodeAll(ps)) }

  /** A printed packet list is read back tag by tag exactly when every payload fits in 24 bits. */
  lemma StreamReadsBackExactly(ps: seq<Packet>)
    ensures ReadBack(Stream(ps)) == EncodeAll(ps) <==> forall p | p in ps :: |p.data| < MAX_PAYLOAD
  {
    var tags := EncodeAll(ps);
    assert Stream(ps)[FILE_HEADER_SIZE..] == Concat(tags) + [];
    if forall p | p in ps :: |p.data| < MAX_PAYLOAD {
      forall t | t in tags ensures Framed(t) {
        var i :| 0 <= i < |tags| && tags[i] == t;
        EncodeFramesExactly(ps[i]);
      }
      TagsOfConcat(tags, []);
    } else {
      var i :| 0 <= i < |ps| && |ps[i].data| >= MAX_PAYLOAD;
      EncodeFramesExactly(ps[i]);
      TagsArePrefix(Concat(tags) + []);
      assert tags[i] in tags && !Framed(tags[i]);
    }
  }

  /** Type, payload and timestamp of every packet survive the trip through the byte stream. */
  lemma PacketsSurvive(ps: seq<Packet>)
    requires forall p | p in ps :: |p.data| < MAX_PAYLOAD
    ensures AllFramed(ReadBack(Stream(ps))) && DecodeAll(ReadBack(Stream(ps))) == ps
  {
    StreamReadsBackExactly(ps);
    TagsArePrefix(Stream(ps)[FILE_HEADER_SIZE..]);
    forall i | 0 <= i < |ps| ensures Decode(EncodeAll(ps)[i]) == ps[i] {
      DecodeEncode(ps[i]);
    }
  }

  // ---------- the header cache ----------

  datatype TagKind = VideoHeader | Keyframe | AudioHeader | Plain

  /** The reader's classification, taken from the payload. */
  function ReaderKind(tag: Tag): TagKind
    requires Framed(tag)
  {
    var data := Decode(tag).data;
    if tag[0] == TAG_VIDEO && data != [] then
      var avcPacketType := if |data| > 1 then data[1] else 255;
      if avcPacketType == 0 then VideoHeader else if data[0] / 16 == 1 then Keyframe else Plain
    else if tag[0] == TAG_AUDIO && data != [] then
      var aacPacketType := if |data| > 1 then data[1] else 255;
      if aacPacketType == 0 then AudioHeader else Plain
    else Plain
  }

  /** The router's classification, taken from fixed offsets of the whole tag. */
  function RouterKind(tag: Tag): TagKind {
    if IsVideoHeader(tag) then VideoHeader
    else if IsVideoKeyframe(tag) then Keyframe
    else if IsAudioHeader(tag) then AudioHeader
    else Plain
  }

  /** Reader and router agree on every framed tag with two payload bytes, and rewriting the timestamp changes
    * neither. */
  lemma ClassificationsAgree(tag: Tag, ts: U32)
    requires Framed(tag)
    ensures PayloadSize(tag) >= 2 ==> ReaderKind(tag) == RouterKind(tag)
    ensures Framed(Rewritten(tag, ts)) && ReaderKind(Rewritten(tag, ts)) == ReaderKind(tag)
    ensures RouterKind(Rewritten(tag, ts)) == RouterKind(tag)
  {
    RewriteKeepsFraming(tag, ts);
    RewriteKeepsClass(tag, ts);
  }

  lemma ShortTagLooksLikeHeader(p: Packet)
    requires |p.data| < 2
    ensures |Encode(p)| >= 13 && Encode(p)[12] == 0
  {
    var total: U32 := TAG_HEADER_SIZE + |p.data|;
    assert Split(total).b3 == 0 && Split(total).b2 == 0;
    TrailerByte(p.tagType, Split(DataSize(p.data)), Split(p.timestamp), p.data, Split(total));
  }

  lemma TrailerByte(tagType: Byte, size: Word, ts: Word, data: seq<Byte>, total: Word)
    requires |data| < 2 && total.b3 == 0 && total.b2 == 0
    ensures var t := Assemble(tagType, size, ts, data, total); |t| >= 13 && t[12] == 0
  {
  }

  /** On printed tags the two disagree exactly on audio and video tags whose payload is shorter than two bytes:
    * the router then looks into the size trailer. */
  lemma ClassificationsAgreeExactly(p: Packet)
    requires |p.data| < MAX_PAYLOAD
    ensures Framed(Encode(p))
    ensures ReaderKind(Encode(p)) == RouterKind(Encode(p))
       <==> |p.data| >= 2 || (p.tagType != TAG_VIDEO && p.tagType != TAG_AUDIO)
  {
    DecodeEncode(p);
    var tag := Encode(p);
    if |p.data| >= 2 {
      EncodeFramesExactly(p);
      ClassificationsAgree(tag, 0);
    } else {
      ShortTagLooksLikeHeader(p);
    }
  }

  /** One tag's effect on the cached entry of its source. A keyframe is kept only if an entry exists. */
  function CacheTag(entry: Option<SequenceHeaders>, tag: Tag): Option<SequenceHeaders>
    requires Framed(tag)
  {
    match ReaderKind(tag)
    case VideoHeader => Some(entry.GetOr(NO_HEADERS).(video := Some(tag)))
    case AudioHeader => Some(entry.GetOr(NO_HEADERS).(audio := Some(tag)))
    case Keyframe => if entry.Some? then Some(entry.value.(lastKeyframe := Some(tag))) else None
    case Plain => entry
  }

  function CacheTags(entry: Option<SequenceHeaders>, tags: seq<Tag>): Option<SequenceHeaders>
    requires forall t | t in tags :: Framed(t)
  {
    if tags == [] then entry else CacheTag(CacheTags(entry, tags[..|tags| - 1]), tags[|tags| - 1])
  }

  /** The last tag of a kind, if any. */
  function LastOf(tags: seq<Tag>, kind: TagKind): Option<Tag>
    requires forall t | t in tags :: Framed(t)
  {
    if tags == [] then None
    else if ReaderKind(tags[|tags| - 1]) == kind then Some(tags[|tags| - 1])
    else LastOf(tags[..|tags| - 1], kind)
  }

  /** The index of the first codec header, or the length when there is none. */
  function FirstHeader(tags: seq<Tag>): (n: nat)
    requires forall t | t in tags :: Framed(t)
    ensures n <= |tags|
    ensures forall i | 0 <= i < n :: ReaderKind(tags[i]) != VideoHeader && ReaderKind(tags[i]) != AudioHeader
    ensures n < |tags| ==> ReaderKind(tags[n]) == VideoHeader || ReaderKind(tags[n]) == AudioHeader
  {
    if tags == [] then 0
    else if ReaderKind(tags[0]) == VideoHeader || ReaderKind(tags[0]) == AudioHeader then 0
    else 1 + FirstHeader(tags[1..])
  }

  lemma {:induction false} FirstHeaderOfPrefix(tags: seq<Tag>)
    requires AllFramed(tags) && tags != []
    ensures var n, m := FirstHeader(tags), FirstHeader(tags[..|tags| - 1]);
            if n < |tags| - 1 then m == n else m == |tags| - 1
  {
    var init := tags[..|tags| - 1];
    var n, m := FirstHeader(tags), FirstHeader(init);
    assert forall i | 0 <= i < |init| :: init[i] == tags[i];
    if n < |init| {
      assert m <= n;
      assert m == n;
    }
  }

  /** From an empty cache, after any tags: there is an entry once a codec header has passed; it holds the last
    * header of each kind, and the last keyframe among the tags after the first header. */
  lemma {:induction false} CacheIsItsFold(tags: seq<Tag>)
    requires AllFramed(tags)
    ensures var n := FirstHeader(tags);
            CacheTags(None, tags) == if n == |tags| then None
                                     else Some(SequenceHeaders(LastOf(tags, VideoHeader), LastOf(tags, AudioHeader),
                                         LastOf(tags[n..], Keyframe)))
  {
    hide Framed, ReaderKind;
    if tags != [] {
      var init := tags[..|tags| - 1];
      var n := FirstHeader(tags);
      FirstHeaderOfPrefix(tags);
      CacheIsItsFold(init);
      if n < |init| {
        assert tags[n..][..|tags[n..]| - 1] == init[n..];
      } else {
        NoHeadersInside(init);
        if n == |init| {
          assert tags[n..] == [tags[n]];
          assert tags[n..][..0] == [];
        }
      }
    }
  }

  lemma {:induction false} NoHeadersInside(tags: seq<Tag>)
    requires AllFramed(tags) && FirstHeader(tags) == |tags|
    ensures LastOf(tags, VideoHeader) == None && LastOf(tags, AudioHeader) == None
  {
    if tags != [] {
      var init := tags[..|tags| - 1];
      assert forall i | 0 <= i < |init| :: init[i] == tags[i];
      NoHeadersInside(init);
    }
  }

  lemma {:induction false} CacheTagsAppend(entry: Option<SequenceHeaders>, a: seq<Tag>, b: seq<Tag>)
    requires AllFramed(a) && AllFramed(b)
    ensures AllFramed(a + b)
    ensures CacheTags(entry, a + b) == CacheTags(CacheTags(entry, a), b)
  {
    if b == [] {
      assert a + b == a;
    } else {
      CacheTagsAppend(entry, a, b[..|b| - 1]);
      assert (a + b)[..|a + b| - 1] == a + b[..|b| - 1];
    }
  }

  // ---------- what later stages rely on ----------

  /** A cached entry whose parts are what their names say. */
  predicate WellFormed(h: SequenceHeaders) {
    && (h.video.Some? ==> Framed(h.video.value) && ReaderKind(h.video.value) == VideoHeader)
    && (h.audio.Some? ==> Framed(h.audio.value) && ReaderKind(h.audio.value) == AudioHeader)
    && (h.lastKeyframe.Some? ==> Framed(h.lastKeyframe.value) && ReaderKind(h.lastKeyframe.value) == Keyframe)
  }

  /** Whatever is read, the cache stays well formed: an adversarial stream cannot make it hold anything else. */
  lemma {:induction false} CacheStaysWellFormed(entry: Option<SequenceHeaders>, tags: seq<Tag>)
    requires AllFramed(tags) && (entry.Some? ==> WellFormed(entry.value))
    ensures CacheTags(entry, tags).Some? ==> WellFormed(CacheTags(entry, tags).value)
  {
    hide Framed, ReaderKind;
    if tags != [] {
      CacheStaysWellFormed(entry, tags[..|tags| - 1]);
    }
  }

  /** The router recognises cached headers as such. */
  lemma CachedHeadersAreRecognised(h: SequenceHeaders)
    requires WellFormed(h)
    ensures h.video.Some? ==> IsVideoHeader(h.video.value)
    ensures h.audio.Some? ==> IsAudioHeader(h.audio.value)
  {
    if h.video.Some? {
      ClassificationsAgree(h.video.value, 0);
    }
    if h.audio.Some? {
      ClassificationsAgree(h.audio.value, 0);
    }
  }

  // ---------- the imperative reader ----------

  /** The child's standard output: read_exact either fills the buffer or hits the end of the stream. */
  class ByteStream {
    const bytes: seq<Byte>
    var pos: nat

    ghost predicate Valid() reads this { pos <= |bytes| }

    ghost function Rest(): seq<Byte>
      requires Valid()
      reads this
    {
      bytes[pos..]
    }

    constructor (bytes: seq<Byte>)
      ensures Valid() && Rest() == bytes
    {
      this.bytes := bytes;
      pos := 0;
    }

    method ReadExact(n: nat) returns (buf: Option<seq<Byte>>)
      requires Valid()
      modifies this
      ensures Valid()
      ensures n <= |old(Rest())| ==> buf == Some(old(Rest())[..n]) && Rest() == old(Rest())[n..]
      ensures n > |old(Rest())| ==> buf == None && Rest() == []
    {
      if pos + n <= |bytes| {
        buf := Some(bytes[pos..pos + n]);
        assert buf.value == Rest()[..n] && bytes[pos + n..] == Rest()[n..];
        pos := pos + n;
      } else {
        buf := None;
        pos := |bytes|;
      }
    }
  }

  /** A broadcast sender, seen from its sending side. */
  class Relay {
    var sent: seq<Tag>

    constructor ()
      ensures sent == []
    {
      sent := [];
    }

    method Send(tag: Tag)
      modifies this
      ensures sent == old(sent) + [tag]
    {
      sent := sent + [tag];
    }
  }

  /** The shared map from sources to their cached headers. */
  class HeaderCache {
    var entries: map<SourceId, SequenceHeaders>

    constructor ()
      ensures entries == map[]
    {
      entries := map[];
    }

    function Entry(id: SourceId): Option<SequenceHeaders>
      reads this
    {
      if id in entries then Some(entries[id]) else None
    }

    method Update(id: SourceId, tag: Tag)
      requires Framed(tag)
      modifies this
      ensures Entry(id) == CacheTag(old(Entry(id)), tag)
      ensures forall other | other != id :: Entry(other) == old(Entry(other))
    {
      var data := tag[TAG_HEADER_SIZE..|tag| - 4];
      var tagType := tag[0];
      if tagType == TAG_VIDEO && data != [] {
        var avcPacketType := if |data| > 1 then data[1] else 255;
        var frameType := data[0] / 16;
        if avcPacketType == 0 {
          var entry := if id in entries then entries[id] else NO_HEADERS;
          entries := entries[id := entry.(video := Some(tag))];
        } else if frameType == 1 {
          if id in entries {
            entries := entries[id := entries[id].(lastKeyframe := Some(tag))];
          }
        }
      } else if tagType == TAG_AUDIO && data != [] {
        var aacPacketType := if |data| > 1 then data[1] else 255;
        if aacPacketType == 0 {
          var entry := if id in entries then entries[id] else NO_HEADERS;
          entries := entries[id := entry.(audio := Some(tag))];
        }
      }
    }
  }

  method ReadNormalizedOutput(sourceId: SourceId, stdout: ByteStream, publicTx: Relay, headers: HeaderCache)
    returns (frameCount: nat)
    requires stdout.Valid()
    modifies stdout, publicTx, headers
    ensures stdout.Valid() && stdout.Rest() == []
    ensures var tags := ReadBack(old(stdout.Rest()));
            && AllFramed(tags)
            && frameCount == |tags|
            && publicTx.sent == old(publicTx.sent) + tags
            && headers.Entry(sourceId) == CacheTags(old(headers.Entry(sourceId)), tags)
    ensures forall other | other != sourceId :: headers.Entry(other) == old(headers.Entry(other))
  {
    hide CacheTags, Tags, CacheTag, Framed;
    frameCount := 0;
    NothingRead(headers.Entry(sourceId));
    ReadBackIsPrefix(stdout.Rest());
    ghost var all := ReadBack(stdout.Rest());
    ghost var sent, entry := publicTx.sent, headers.Entry(sourceId);
    var header := stdout.ReadExact(FILE_HEADER_SIZE);
    if header.None? {
      return;
    }
    ghost var done: seq<Tag> := [];
    var open := true;
    while open
      invariant stdout.Valid()
      invariant AllFramed(done)
      invariant all == done + Tags(stdout.Rest())
      invariant !open ==> stdout.Rest() == []
      invariant frameCount == |done|
      invariant publicTx.sent == sent + done
      invariant headers.Entry(sourceId) == CacheTags(entry, done)
      invariant forall other | other != sourceId :: headers.Entry(other) == old(headers.Entry(other))
      decreases open, |stdout.Rest()|
    {
      ReadStep(stdout.Rest());
      var tag := ReadTag(stdout);
      if tag.None? {
        open := false;
      } else {
        headers.Update(sourceId, tag.value);
        publicTx.Send(tag.value);
        frameCount := frameCount + 1;
        OneMore(entry, done, tag.value, Tags(stdout.Rest()));
        done := done + [tag.value];
      }
    }
    assert all == done;
  }

  lemma NothingRead(entry: Option<SequenceHeaders>)
    ensures CacheTags(entry, []) == entry && Tags([]) == []
  {
  }

  lemma ReadStep(s: seq<Byte>)
    ensures HasTag(s) ==> Framed(s[..TagLength(s)]) && Tags(s) == [s[..TagLength(s)]] + Tags(s[TagLength(s)..])
    ensures !HasTag(s) ==> Tags(s) == []
  {
  }

  lemma OneMore(entry: Option<SequenceHeaders>, done: seq<Tag>, tag: Tag, rest: seq<Tag>)
    requires AllFramed(done) && Framed(tag)
    ensures AllFramed(done + [tag])
    ensures CacheTags(entry, done + [tag]) == CacheTag(CacheTags(entry, done), tag)
    ensures done + ([tag] + rest) == (done + [tag]) + rest
  {
    hide CacheTag, Framed;
    assert (done + [tag])[..|done|] == done;
  }

  /** One pass of the loop up to the publication: header, payload and trailer are read separately. */
  method ReadTag(stdout: ByteStream) returns (tag: Option<Tag>)
    requires stdout.Valid()
    modifies stdout
    ensures stdout.Valid()
    ensures var s := old(stdout.Rest());
            if HasTag(s) then tag == Some(s[..TagLength(s)]) && stdout.Rest() == s[TagLength(s)..]
            else tag == None && stdout.Rest() == []
  {
    ghost var s := stdout.Rest();
    var tagHeader := stdout.ReadExact(TAG_HEADER_SIZE);
    if tagHeader.None? {
      return None;
    }
    var dataSize := PayloadSize(tagHeader.value);
    var data := stdout.ReadExact(dataSize);
    if data.None? {
      return None;
    }
    var prevSize := stdout.ReadExact(4);
    if prevSize.None? {
      return None;
    }
    var tagBuf := tagHeader.value;
    tagBuf := tagBuf + data.value;
    tagBuf := tagBuf + prevSize.value;
    assert tagBuf == s[..TagLength(s)];
    return Some(tagBuf);
  }
}
