/** The writer of one destination: file header, priming tags, then the program as far as the broadcast receiver
  * keeps up and the encoder's input pipe holds. */
module Egress {
  import opened Wrappers
  import opened Flv
  import opened TagReader
  import opened ProgramRouter
  import opened RouterSplices

  function Min(a: nat, b: nat): nat { if a < b then a else b }

  // ---------- the two ends ----------

  /** The encoder's standard input. It takes `capacity` bytes before it breaks, at a moment of the environment's
    * choosing. */
  class Pipe {
    const capacity: nat
    var written: seq<Byte>

    constructor (capacity: nat)
      ensures written == [] && this.capacity == capacity
    {
      this.capacity := capacity;
      written := [];
    }

    ghost predicate Valid() reads this { |written| <= capacity }

    method WriteAll(data: seq<Byte>) returns (ok: bool)
      requires Valid()
      modifies this`written
      ensures Valid()
      ensures written == (old(written) + data)[..Min(capacity, |old(written)| + |data|)]
      ensures ok <==> |old(written)| + |data| <= capacity
    {
      var room := capacity - |written|;
      ok := |data| <= room;
      written := written + data[..Min(room, |data|)];
    }
  }

  /** What the next call of recv finds: a tag if one is there, a gap of n lost tags, or nothing ever again. */
  datatype Outcome = Deliver | Lag(n: nat) | Close

  datatype RecvResult = Ok(tag: Tag) | Lagged | Closed

  /** A broadcast receiver over the tags published since it subscribed; a slow one loses tags from the front. */
  class Receiver {
    const program: seq<Tag>
    const script: seq<Outcome>
    var cursor: nat
    var step: nat

    constructor (program: seq<Tag>, script: seq<Outcome>)
      ensures Valid() && cursor == 0 && step == 0 && this.program == program && this.script == script
    {
      this.program, this.script, cursor, step := program, script, 0, 0;
    }

    ghost predicate Valid() reads this { cursor <= |program| && step <= |script| }

    ghost function Coming(): seq<Tag>
      requires Valid()
      reads this
    {
      DeliveredFrom(program, cursor, script[step..])
    }

    method Recv() returns (r: RecvResult)
      requires Valid()
      modifies this
      ensures Valid()
      ensures r.Closed? || step == old(step) + 1
      ensures r.Closed? ==> old(Coming()) == []
      ensures r.Lagged? ==> old(Coming()) == Coming()
      ensures r.Ok? ==> old(Coming()) == [r.tag] + Coming()
    {
      if step == |script| || script[step].Close? || (script[step].Deliver? && cursor == |program|) {
        return Closed;
      }
      var outcome := script[step];
      assert script[step..][1..] == script[step + 1..];
      step := step + 1;
      if outcome.Lag? {
        cursor := Min(cursor + outcome.n, |program|);
        return Lagged;
      }
      r := Ok(program[cursor]);
      cursor := cursor + 1;
    }
  }

  /** The tags that are delivered from a cursor under a script. */
  function DeliveredFrom(program: seq<Tag>, cursor: nat, script: seq<Outcome>): seq<Tag>
    requires cursor <= |program|
    decreases |script|
  {
    if script == [] then []
    else match script[0]
      case Deliver =>
        if cursor < |program| then [program[cursor]] + DeliveredFrom(program, cursor + 1, script[1..]) else []
      case Lag(n) => DeliveredFrom(program, Min(cursor + n, |program|), script[1..])
      case Close => []
  }

  /** The positions of the program that are delivered from a cursor under a script. */
  function Indices(program: seq<Tag>, cursor: nat, script: seq<Outcome>): seq<nat>
    requires cursor <= |program|
    decreases |script|
  {
    if script == [] then []
    else match script[0]
      case Deliver => if cursor < |program| then [cursor] + Indices(program, cursor + 1, script[1..]) else []
      case Lag(n) => Indices(program, Min(cursor + n, |program|), script[1..])
      case Close => []
  }

  /** An in-order subsequence: strictly increasing positions. */
  ghost predicate InOrder(indices: seq<nat>, from: nat, to: nat) {
    && (forall i | 0 <= i < |indices| :: from <= indices[i] < to)
    && (forall i, j | 0 <= i < j < |indices| :: indices[i] < indices[j])
  }

  lemma {:induction false} DeliveredInOrder(program: seq<Tag>, cursor: nat, script: seq<Outcome>)
    requires cursor <= |program|
    ensures InOrder(Indices(program, cursor, script), cursor, |program|)
    decreases |script|
  {
    if script != [] {
      match script[0] {
        case Deliver =>
          if cursor < |program| {
            DeliveredInOrder(program, cursor + 1, script[1..]);
          }
        case Lag(n) => DeliveredInOrder(program, Min(cursor + n, |program|), script[1..]);
        case Close =>
      }
    }
  }

  /** The tags delivered to a fresh receiver. */
  function Delivered(program: seq<Tag>, script: seq<Outcome>): seq<Tag> { DeliveredFrom(program, 0, script) }

  /** The delivered tags are the program's tags at the delivered positions. */
  lemma {:induction false} DeliveredAtIndices(program: seq<Tag>, cursor: nat, script: seq<Outcome>)
    requires cursor <= |program|
    ensures var indices, tags := Indices(program, cursor, script), DeliveredFrom(program, cursor, script);
            && |tags| == |indices| && InOrder(indices, cursor, |program|)
            && forall k | 0 <= k < |tags| :: tags[k] == program[indices[k]]
    decreases |script|
  {
    DeliveredInOrder(program, cursor, script);
    if script != [] {
      match script[0] {
        case Deliver =>
          if cursor < |program| {
            DeliveredAtIndices(program, cursor + 1, script[1..]);
          }
        case Lag(n) => DeliveredAtIndices(program, Min(cursor + n, |program|), script[1..]);
        case Close =>
      }
    }
  }

  // ---------- the writer ----------

  function Primers(headers: Option<SequenceHeaders>): seq<Tag> {
    if headers.None? then []
    else OptionalTag(headers.value.video) + OptionalTag(headers.value.audio) + OptionalTag(headers.value.lastKeyframe)
  }

  function OptionalTag(t: Option<Tag>): seq<Tag> { if t.Some? then [t.value] else [] }

  /** The bytes the writer means to write. */
  function Intended(headers: Option<SequenceHeaders>, tags: seq<Tag>): seq<Byte> {
    FILE_HEADER + Concat(Primers(headers) + tags)
  }

  /** What is written is the intended stream cut where the pipe broke. */
  ghost predicate Wrote(pipe: Pipe, intended: seq<Byte>)
    reads pipe
  {
    pipe.written == intended[..Min(pipe.capacity, |intended|)]
  }

  ghost predicate Held(pipe: Pipe) reads pipe { |pipe.written| < pipe.capacity }

  /** One more write on a pipe that may already be broken. */
  lemma WroteMore(before: seq<Byte>, intended: seq<Byte>, data: seq<Byte>, capacity: nat)
    requires before == intended[..Min(capacity, |intended|)]
    ensures (before + data)[..Min(capacity, |before| + |data|)]
        == (intended + data)[..Min(capacity, |intended| + |data|)]
  {
  }

  lemma ConcatOne(tags: seq<Tag>, tag: Tag)
    ensures FILE_HEADER + Concat(tags + [tag]) == (FILE_HEADER + Concat(tags)) + tag
  {
    ConcatSplit(tags, [tag]);
    assert Concat([tag]) == tag + Concat([]) == tag;
  }

  method WriteTag(pipe: Pipe, tag: Tag, ghost done: seq<Tag>) returns (ok: bool)
    requires pipe.Valid() && Wrote(pipe, FILE_HEADER + Concat(done))
    modifies pipe`written
    ensures pipe.Valid() && Wrote(pipe, FILE_HEADER + Concat(done + [tag]))
    ensures !ok ==> |pipe.written| == pipe.capacity < |FILE_HEADER + Concat(done + [tag])|
  {
    hide Concat;
    ConcatOne(done, tag);
    WroteMore(pipe.written, FILE_HEADER + Concat(done), tag, pipe.capacity);
    ok := pipe.WriteAll(tag);
  }

  /** Once the pipe is broken, or nothing is left to write, the rest makes no difference. */
  lemma CutEarlier(written: seq<Byte>, done: seq<Tag>, rest: seq<Tag>, capacity: nat)
    requires var stream := FILE_HEADER + Concat(done); written == stream[..Min(capacity, |stream|)]
    requires rest == [] || capacity <= |FILE_HEADER + Concat(done)|
    ensures var stream := FILE_HEADER + Concat(done + rest); written == stream[..Min(capacity, |stream|)]
  {
    hide Concat;
    ConcatSplit(done, rest);
    if rest == [] {
      assert done + rest == done;
    } else {
      assert FILE_HEADER + (Concat(done) + Concat(rest)) == (FILE_HEADER + Concat(done)) + Concat(rest);
    }
  }

  method RunWriter(pipe: Pipe, rx: Receiver, seqHeaders: Option<SequenceHeaders>)
    requires pipe.written == [] && rx.Valid() && rx.cursor == 0 && rx.step == 0
    modifies pipe`written, rx
    ensures pipe.Valid() && Wrote(pipe, Intended(seqHeaders, Delivered(rx.program, rx.script)))
    ensures AllFramed(rx.program) && (seqHeaders.Some? ==> WellFormed(seqHeaders.value)) ==>
              Held(pipe) ==> StartsWith(ReadBack(pipe.written), seqHeaders, Delivered(rx.program, rx.script))
  {
    hide Concat, DeliveredFrom, FILE_HEADER, Primers;
    ghost var all := Primers(seqHeaders) + Delivered(rx.program, rx.script);
    assert rx.script[0..] == rx.script;
    var ok := WriteHeader(pipe);
    if !ok {
      CutEarlier(pipe.written, [], all, pipe.capacity);
      assert [] + all == all;
      return;
    }
    ghost var done := WritePrimers(pipe, seqHeaders);
    Forward(pipe, rx, done);
    if AllFramed(rx.program) && (seqHeaders.Some? ==> WellFormed(seqHeaders.value)) && Held(pipe) {
      HeldReadsBack(pipe.written, pipe.capacity, seqHeaders, rx.program, rx.script);
    }
  }

  method WriteHeader(pipe: Pipe) returns (ok: bool)
    requires pipe.written == []
    modifies pipe`written
    ensures pipe.Valid() && Wrote(pipe, FILE_HEADER + Concat([]))
    ensures !ok ==> pipe.capacity < |FILE_HEADER + Concat([])|
  {
    hide FILE_HEADER, Concat;
    EmptyConcat();
    var header := FlvHeader();
    ok := pipe.WriteAll(header);
    assert [] + header == header;
  }

  /** The receive loop: a lag is skipped, a failed write ends it. */
  method Forward(pipe: Pipe, rx: Receiver, ghost primed: seq<Tag>)
    requires pipe.Valid() && rx.Valid() && Wrote(pipe, FILE_HEADER + Concat(primed))
    modifies pipe`written, rx
    ensures pipe.Valid() && Wrote(pipe, FILE_HEADER + Concat(primed + old(rx.Coming())))
  {
    hide Concat, DeliveredFrom;
    ghost var done, rest := primed, rx.Coming();
    var open := true;
    while open
      invariant pipe.Valid() && rx.Valid()
      invariant primed + old(rx.Coming()) == done + rest
      invariant open ==> rest == rx.Coming()
      invariant Wrote(pipe, FILE_HEADER + Concat(done))
      invariant !open ==> rest == [] || pipe.capacity < |FILE_HEADER + Concat(done)|
      decreases open, |rx.script| - rx.step
    {
      var msg := rx.Recv();
      match msg {
        case Ok(tag) =>
          open := WriteTag(pipe, tag, done);
          assert done + rest == (done + [tag]) + rest[1..];
          done, rest := done + [tag], rest[1..];
        case Lagged =>
        case Closed => open := false;
      }
    }
    CutEarlier(pipe.written, done, rest, pipe.capacity);
  }

  lemma EmptyConcat()
    ensures FILE_HEADER + Concat([]) == FILE_HEADER
  {
  }

  method WritePrimers(pipe: Pipe, seqHeaders: Option<SequenceHeaders>) returns (ghost done: seq<Tag>)
    requires pipe.Valid() && Wrote(pipe, FILE_HEADER + Concat([]))
    modifies pipe`written
    ensures pipe.Valid() && done == Primers(seqHeaders) && Wrote(pipe, FILE_HEADER + Concat(done))
  {
    hide Concat;
    done := [];
    if seqHeaders.Some? {
      var h := seqHeaders.value;
      if h.video.Some? {
        var _ := WriteTag(pipe, h.video.value, done);
        done := done + [h.video.value];
      }
      if h.audio.Some? {
        var _ := WriteTag(pipe, h.audio.value, done);
        done := done + [h.audio.value];
      }
      if h.lastKeyframe.Some? {
        var _ := WriteTag(pipe, h.lastKeyframe.value, done);
        done := done + [h.lastKeyframe.value];
      }
    }
  }

  // ---------- the theorem ----------

  function Rank(tag: Tag): nat
    requires Framed(tag)
  {
    match ReaderKind(tag)
    case VideoHeader => 0
    case AudioHeader => 1
    case Keyframe => 2
    case Plain => 3
  }

  /** At most one video header, one audio header and one keyframe, in this order, and nothing else. */
  ghost predicate PrimersInOrder(ps: seq<Tag>) {
    && AllFramed(ps) && |ps| <= 3
    && (forall i | 0 <= i < |ps| :: Rank(ps[i]) < 3)
    && (forall i, j | 0 <= i < j < |ps| :: Rank(ps[i]) < Rank(ps[j]))
  }

  lemma CachePrimesInOrder(headers: Option<SequenceHeaders>)
    requires headers.Some? ==> WellFormed(headers.value)
    ensures PrimersInOrder(Primers(headers))
  {
    hide Framed, ReaderKind;
  }

  /** The delivered tags are the program's tags at strictly increasing positions. */
  ghost predicate DeliveredIsSelection(program: seq<Tag>, script: seq<Outcome>) {
    var indices, tags := Indices(program, 0, script), Delivered(program, script);
    && |tags| == |indices| && InOrder(indices, 0, |program|)
    && forall k | 0 <= k < |tags| :: tags[k] == program[indices[k]]
  }

  /** For any lag pattern and any moment at which the pipe breaks: what a reader recovers from the written bytes is a
    * prefix of the priming tags followed by the delivered tags, and the delivered tags are an in-order subsequence of
    * the program; everything is recovered when the pipe held. */
  lemma OutputStaysFramed(headers: Option<SequenceHeaders>, program: seq<Tag>, script: seq<Outcome>, capacity: nat)
    requires headers.Some? ==> WellFormed(headers.value)
    requires AllFramed(program)
    ensures var tags := Primers(headers) + Delivered(program, script);
            var stream := Intended(headers, Delivered(program, script));
            && PrimersInOrder(Primers(headers)) && DeliveredIsSelection(program, script)
            && (capacity >= |stream| ==> ReadBack(stream[..Min(capacity, |stream|)]) == tags)
            && (FILE_HEADER_SIZE <= capacity <= |stream| ==>
                  ReadBack(stream[..Min(capacity, |stream|)])
                      == tags[..CompleteWithin(tags, capacity - FILE_HEADER_SIZE)])
            && (capacity < FILE_HEADER_SIZE ==> ReadBack(stream[..Min(capacity, |stream|)]) == [])
  {
    hide Concat, Framed, WellFormed, Tags, Indices, DeliveredFrom, Rank;
    var tags := Primers(headers) + Delivered(program, script);
    DeliveredAtIndices(program, 0, script);
    CachePrimesInOrder(headers);
    assert AllFramed(tags);
    if FILE_HEADER_SIZE <= capacity <= |Intended(headers, Delivered(program, script))| {
      TruncatedStreamReadsBack(tags, capacity - FILE_HEADER_SIZE);
    }
    WholeStreamReadsBack(tags);
  }

  function Count(t: Option<Tag>): nat { if t.Some? then 1 else 0 }

  /** First exactly what is cached, in the order video header, audio header, keyframe; then the delivered tags. */
  predicate StartsWith(tags: seq<Tag>, headers: Option<SequenceHeaders>, delivered: seq<Tag>) {
    if headers.None? then tags == delivered
    else
      var h := headers.value;
      var n := Count(h.video) + Count(h.audio) + Count(h.lastKeyframe);
      && |tags| == n + |delivered| && tags[n..] == delivered
      && (h.video.Some? ==> tags[0] == h.video.value)
      && (h.audio.Some? ==> tags[Count(h.video)] == h.audio.value)
      && (h.lastKeyframe.Some? ==> tags[n - 1] == h.lastKeyframe.value)
  }

  lemma PrimersStart(headers: Option<SequenceHeaders>, delivered: seq<Tag>)
    ensures StartsWith(Primers(headers) + delivered, headers, delivered)
  {
    var tags := Primers(headers) + delivered;
    if headers.Some? {
      assert tags[|Primers(headers)|..] == delivered;
    } else {
      assert tags == delivered;
    }
  }

  /** A tag is in front of the delivered ones if and only if it is cached. */
  lemma FrontIsTheCache(tags: seq<Tag>, headers: Option<SequenceHeaders>, delivered: seq<Tag>, tag: Tag)
    requires StartsWith(tags, headers, delivered)
    ensures tag in tags[..|tags| - |delivered|] <==>
            headers.Some?
            && (Some(tag) == headers.value.video || Some(tag) == headers.value.audio
                  || Some(tag) == headers.value.lastKeyframe)
  {
    if headers.Some? {
      var h, front := headers.value, tags[..|tags| - |delivered|];
      if h.video.Some? {
        assert front[0] == h.video.value;
      }
      if h.audio.Some? {
        assert front[Count(h.video)] == h.audio.value;
      }
      if h.lastKeyframe.Some? {
        assert front[|front| - 1] == h.lastKeyframe.value;
      }
    }
  }

  /** On a pipe that held, what is written reads back as what is cached and then what is delivered. */
  lemma HeldReadsBack(written: seq<Byte>, capacity: nat, headers: Option<SequenceHeaders>, program: seq<Tag>,
                      script: seq<Outcome>)
    requires AllFramed(program) && (headers.Some? ==> WellFormed(headers.value)) && |written| < capacity
    requires var stream := Intended(headers, Delivered(program, script)); written == stream[..Min(capacity, |stream|)]
    ensures StartsWith(ReadBack(written), headers, Delivered(program, script))
  {
    hide WellFormed, ReadBack, StartsWith, Primers, Intended;
    var stream := Intended(headers, Delivered(program, script));
    OutputStaysFramed(headers, program, script, |stream|);
    PrimersStart(headers, Delivered(program, script));
    assert stream[..Min(|stream|, |stream|)] == stream && written == stream;
  }

  /** Without lags and closes nothing of the program is lost, up to the number of calls. */
  lemma {:induction false} LosslessDeliversAll(program: seq<Tag>, cursor: nat, script: seq<Outcome>)
    requires cursor <= |program| && forall i | 0 <= i < |script| :: script[i] == Deliver
    ensures DeliveredFrom(program, cursor, script) == program[cursor..Min(cursor + |script|, |program|)]
    decreases |script|
  {
    if script != [] && cursor < |program| {
      LosslessDeliversAll(program, cursor + 1, script[1..]);
      var end := Min(cursor + |script|, |program|);
      assert program[cursor..end] == [program[cursor]] + program[cursor + 1..end];
      assert script[0] == Deliver;
    }
  }

  /** A lag skips as many tags as it says and delivers nothing; a close ends everything. */
  lemma {:induction false} LagSkips(program: seq<Tag>, cursor: nat, n: nat, script: seq<Outcome>)
    requires cursor + n <= |program|
    ensures DeliveredFrom(program, cursor, [Lag(n)] + script) == DeliveredFrom(program, cursor + n, script)
    ensures DeliveredFrom(program, cursor, [Close] + script) == []
    ensures cursor < |program| ==>
              DeliveredFrom(program, cursor, [Deliver] + script)
                  == [program[cursor]] + DeliveredFrom(program, cursor + 1, script)
  {
    assert ([Lag(n)] + script)[1..] == script && ([Deliver] + script)[1..] == script;
  }

  lemma WholeStreamReadsBack(tags: seq<Tag>)
    requires AllFramed(tags)
    ensures var s := FILE_HEADER + Concat(tags); ReadBack(s) == tags && s[..|s|] == s
  {
    TagsOfConcat(tags, []);
    assert (FILE_HEADER + Concat(tags))[FILE_HEADER_SIZE..] == Concat(tags) + [];
  }

  /** From framed relays and well-formed caches, through any run of the router, to a destination that joins after n
    * tags. */
  lemma FramedProgramReachesDestination(es: seq<Event>, n: nat, headers: Option<SequenceHeaders>, script: seq<Outcome>)
    requires EventsOk(es) && (forall e | e in es :: TagsFramed(e))
    requires headers.Some? ==> WellFormed(headers.value)
    requires n <= |Run(START, es).log|
    ensures var program := ProgramTags(Run(START, es).log)[n..];
            && ReadBack(Intended(headers, Delivered(program, script))) == Primers(headers) + Delivered(program, script)
            && PrimersInOrder(Primers(headers)) && DeliveredIsSelection(program, script)
  {
    hide Concat, WellFormed, Tags, Rank, ReaderKind, DeliveredIsSelection, DeliveredFrom, ReadBack;
    ProgramReadsBack(es);
    var program := ProgramTags(Run(START, es).log)[n..];
    var stream := Intended(headers, Delivered(program, script));
    OutputStaysFramed(headers, program, script, |stream|);
    assert stream[..Min(|stream|, |stream|)] == stream;
  }

  // ---------- from the encoders' bytes ----------

  /** Some reader has published the tag: it was read from some bytes, whatever they were. */
  ghost predicate Read(tag: Tag) { exists stream :: tag in ReadBack(stream) }

  /** The entry is what the readers have made of tags they read. */
  ghost predicate CachedByReaders(h: SequenceHeaders) {
    exists tags :: (forall t | t in tags :: Read(t)) && CachedFrom(tags, h)
  }

  ghost predicate CachedFrom(tags: seq<Tag>, h: SequenceHeaders) {
    AllFramed(tags) && CacheTags(None, tags) == Some(h)
  }

  ghost predicate AllCachedByReaders(headers: Headers) { forall id | id in headers :: CachedByReaders(headers[id]) }

  /** The relays carry what the readers published, and the caches hold what they made of it. */
  ghost predicate FromReaders(e: Event) {
    match e
    case Select(_, headers, _, _) => AllCachedByReaders(headers)
    case PendingTag(tag, _, headers) => Read(tag) && AllCachedByReaders(headers)
    case CurrentTag(tag) => Read(tag)
    case AudioTag(tag) => Read(tag)
    case _ => true
  }

  lemma ReadTagsAreFramed(tag: Tag)
    requires Read(tag)
    ensures Framed(tag)
  {
    hide Framed, ReadBack;
    var stream :| tag in ReadBack(stream);
    ReadBackIsPrefix(stream);
  }

  /** Any framed tag can have been read, and nothing else. */
  lemma ReadExactly(tag: Tag)
    ensures Read(tag) <==> Framed(tag)
  {
    hide ReadBack, Concat;
    if Framed(tag) {
      WholeStreamReadsBack([tag]);
      assert tag in [tag];
    }
    if Read(tag) {
      ReadTagsAreFramed(tag);
    }
  }

  lemma ReadCachesAreWellFormed(h: SequenceHeaders)
    requires CachedByReaders(h)
    ensures WellFormed(h)
  {
    hide WellFormed, Framed;
    var tags :| (forall t | t in tags :: Read(t)) && CachedFrom(tags, h);
    CacheStaysWellFormed(None, tags);
  }

  lemma ReadEventsAreOk(e: Event)
    requires FromReaders(e)
    ensures EventOk(e) && TagsFramed(e)
  {
    hide WellFormed, Framed, Read, CachedByReaders;
    forall tag | Read(tag) ensures Framed(tag) {
      ReadTagsAreFramed(tag);
    }
    forall h | CachedByReaders(h) ensures WellFormed(h) {
      ReadCachesAreWellFormed(h);
    }
  }

  /** End to end: whatever bytes the encoders write, with relays and caches filled by the readers of these bytes,
    * through any run of the router, a destination that joins after n tags receives a stream that reads back as its
    * primers and an in-order selection of the program. */
  lemma ProgramReachesDestination(es: seq<Event>, n: nat, headers: Option<SequenceHeaders>, script: seq<Outcome>)
    requires (forall e | e in es :: FromReaders(e)) && (headers.Some? ==> CachedByReaders(headers.value))
    requires n <= |Run(START, es).log|
    ensures var program := ProgramTags(Run(START, es).log)[n..];
            && ReadBack(Intended(headers, Delivered(program, script))) == Primers(headers) + Delivered(program, script)
            && PrimersInOrder(Primers(headers)) && DeliveredIsSelection(program, script)
  {
    hide FromReaders, EventOk, TagsFramed, WellFormed, CachedByReaders, DeliveredIsSelection, PrimersInOrder, Intended;
    forall e | e in es ensures EventOk(e) && TagsFramed(e) {
      ReadEventsAreOk(e);
    }
    if headers.Some? {
      ReadCachesAreWellFormed(headers.value);
    }
    FramedProgramReachesDestination(es, n, headers, script);
  }
}
