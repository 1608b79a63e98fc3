/** What goes in front of a source: the codec headers at a selection and at a splice, told from the cache and the
  * routing alone; and where every published tag says it comes from. */
module RouterHeaders {
  import opened Wrappers
  import opened Flv
  import opened TagReader
  import opened ProgramRouter
  import opened RouterSwitching
  import opened RouterCompleteness

  /** The tag with another timestamp, and not a byte of it otherwise changed. */
  ghost predicate CopiedAt(copy: Tag, tag: Tag, ts: U32) {
    && |copy| == |tag| && (forall i | 0 <= i < |tag| && (i < 4 || 8 <= i || |tag| < 8) :: copy[i] == tag[i])
    && (|tag| >= 8 ==> ReadTimestamp(copy) == Some(ts))
  }

  /** Audio comes with the video, unless the routing separates it and names a source. */
  predicate AudioComesFrom(routing: Routing, video: SourceId, audio: SourceId) {
    && (routing.audioFollowsVideo ==> audio == video)
    && (routing.activeAudioSource == None ==> audio == video)
    && (!routing.audioFollowsVideo && routing.activeAudioSource.Some? ==> Some(audio) == routing.activeAudioSource)
  }

  predicate VideoCached(headers: Headers, id: SourceId) { id in headers && headers[id].video != None }

  predicate AudioCached(headers: Headers, id: SourceId) { id in headers && headers[id].audio != None }

  function Count(b: bool): nat { if b then 1 else 0 }

  /** The cached video header if there is one, then the audio header of the audio source's entry, or of the video
    * source's when the audio source has no entry; all at the given time. */
  ghost predicate Announced(added: seq<LogEntry>, headers: Headers, video: SourceId, audio: SourceId, ts: U32,
      segment: nat) {
    && (audio in headers ==> |added| == Count(VideoCached(headers, video)) + Count(AudioCached(headers, audio)))
    && (audio !in headers ==> |added| == Count(VideoCached(headers, video)) + Count(AudioCached(headers, video)))
    && (VideoCached(headers, video) ==>
          added != [] && added[0].source == video && CopiedAt(added[0].tag, headers[video].video.value, ts))
    && (AudioCached(headers, audio) ==>
          added != [] && added[|added| - 1].source == audio
          && CopiedAt(added[|added| - 1].tag, headers[audio].audio.value, ts))
    && (audio !in headers && AudioCached(headers, video) ==>
          added != [] && added[|added| - 1].source == video
          && CopiedAt(added[|added| - 1].tag, headers[video].audio.value, ts))
    && forall i | 0 <= i < |added| :: added[i].segment == segment
          && added[i].headerCached == VideoCached(headers, video)
  }

  lemma RewrittenIsCopy(tag: Tag, ts: U32)
    ensures CopiedAt(Rewritten(tag, ts), tag, ts)
  {
    RewriteSetsTimestampOnly(tag, ts, ts);
  }

  lemma InjectedAnnounces(headers: Headers, video: SourceId, audio: SourceId, ts: U32, segment: nat)
    ensures Announced(Injected(headers, video, audio, ts, segment), headers, video, audio, ts, segment)
  {
    hide CopiedAt, Rewritten;
    forall tag: Tag ensures CopiedAt(Rewritten(tag, ts), tag, ts) {
      RewrittenIsCopy(tag, ts);
    }
  }

  lemma AudioSourceByRouting(routing: Routing, video: SourceId, audio: SourceId)
    ensures AudioComesFrom(routing, video, audio) <==> audio == AudioSource(routing, video)
  {
  }

  /** What a selection publishes before any relay tag, and the segment it begins. */
  lemma SelectionAnnounces(r: Router, select: Event, audio: SourceId)
    requires r.phase.Selecting? && select.Select? && r.watched.Some?
    requires AudioComesFrom(select.routing, r.watched.value, audio)
    ensures var next, id := Step(r, select), r.watched.value;
            && r.log <= next.log && next.outputTs == r.outputTs && next.segments == r.segments + 1
            && Announced(next.log[|r.log|..], select.headers, id, audio, r.outputTs, next.segments)
            && (next.phase.Forwarding? <==> select.videoRelay)
            && (next.phase.Forwarding? ==>
                  var seg := next.phase.seg;
                  && seg.source == id && seg.audioSource == audio && seg.headerCached == VideoCached(select.headers, id)
                  && (seg.audioOpen <==> audio != id && select.audioRelay) && seg.pending == None
                  && !seg.gotKeyframe && seg.firstVideoTs == None && seg.firstAudioTs == None
                  && seg.baseOutputTs == r.outputTs && seg.forwarded == 0)
            && next.watched == r.watched && !next.unseen
  {
    hide Announced, Injected;
    var id := r.watched.value;
    AudioSourceByRouting(select.routing, id, audio);
    var added := Injected(select.headers, id, audio, r.outputTs, r.segments + 1);
    InjectedAnnounces(select.headers, id, audio, r.outputTs, r.segments + 1);
    assert (r.log + added)[|r.log|..] == added;
  }

  /** Without a selection nothing is published; what has been read counts as read. */
  lemma NothingSelected(r: Router, select: Event, relay: bool)
    ensures r.phase.Selecting? && select.Select? && r.watched == None ==>
              && Step(r, select).phase.Selecting? && Step(r, select).log == r.log && !Step(r, select).unseen
              && Step(r, select).watched == None
    ensures r.phase.AwaitingSource? && r.unseen ==>
              && Step(r, SourceChanged(relay)).phase.Selecting? && !Step(r, SourceChanged(relay)).unseen
              && Step(r, SourceChanged(relay)).log == r.log
  {
  }

  /** What a splice publishes: the same in front of the new source, then its keyframe. */
  lemma SpliceAnnounces(r: Router, e: Event, audio: SourceId)
    requires IsSplice(r, e) && AudioComesFrom(e.newRouting, r.phase.seg.pending.value.source, audio)
    ensures var next, source := Step(r, e), r.phase.seg.pending.value.source;
            var n := |next.log| - 1;
            && r.log <= next.log[..n]
            && Announced(next.log[|r.log|..n], e.newHeaders, source, audio, r.outputTs, r.segments)
            && CopiedAt(next.log[n].tag, e.tag, r.outputTs) && next.log[n].source == source
            && next.log[n].segment == r.segments && next.log[n].headerCached == VideoCached(e.newHeaders, source)
  {
    hide Announced, Injected, CopiedAt, Step;
    var source := r.phase.seg.pending.value.source;
    AudioSourceByRouting(e.newRouting, source, audio);
    var added := Injected(e.newHeaders, source, audio, r.outputTs, r.segments);
    InjectedAnnounces(e.newHeaders, source, audio, r.outputTs, r.segments);
    SplicePublishes(r, e);
    RewrittenIsCopy(e.tag, r.outputTs);
    var n := |Step(r, e).log| - 1;
    assert Step(r, e).log[..n] == r.log + added;
    assert (r.log + added)[|r.log|..] == added;
    assert Step(r, e).log[|r.log|..n] == added;
  }

  // ---------- provenance and the count ----------

  /** One event of a segment stamps what it publishes with the segment, and counts it. */
  lemma StepStamps(r: Router, e: Event)
    requires r.phase.Forwarding? && Step(r, e).phase.Forwarding?
    ensures var next := Step(r, e);
            && r.log <= next.log && next.segments == r.segments
            && next.phase.seg.headerCached == r.phase.seg.headerCached
            && next.phase.seg.forwarded == r.phase.seg.forwarded + (|next.log| - |r.log|)
            && forall i | |r.log| <= i < |next.log| ::
                 next.log[i].segment == r.segments && next.log[i].headerCached == r.phase.seg.headerCached
  {
    hide Remap, Injected;
  }

  /** While a segment lasts, everything published bears its number and its header mark, and is counted once. */
  lemma {:induction false} SegmentStamps(r: Router, es: seq<Event>)
    requires Stays(r, es)
    ensures var now := Run(r, es);
            && now.phase.Forwarding? && r.log <= now.log && now.segments == r.segments
            && now.phase.seg.headerCached == r.phase.seg.headerCached
            && now.phase.seg.forwarded == r.phase.seg.forwarded + (|now.log| - |r.log|)
            && forall i | |r.log| <= i < |now.log| ::
                 now.log[i].segment == r.segments && now.log[i].headerCached == r.phase.seg.headerCached
  {
    hide Step, Stays;
    StaysBefore(r, es);
    if es != [] {
      SegmentStamps(r, es[..|es| - 1]);
      StepStamps(Run(r, es[..|es| - 1]), es[|es| - 1]);
    }
  }

  // ---------- the end ----------

  /** A closed watch ends the router where it waits on it, and nothing is published ever after. */
  lemma ClosedWatchEnds(r: Router, es: seq<Event>)
    ensures Step(r, SourceWatchClosed).phase.Stopped? && Step(r, SourceWatchClosed).log == r.log
    ensures r.phase.Forwarding? ==>
              Step(r, RoutingWatchClosed).phase.Stopped? && Step(r, RoutingWatchClosed).log == r.log
    ensures r.phase.Stopped? ==> Run(r, es).phase.Stopped? && Run(r, es).log == r.log
  {
    if r.phase.Stopped? {
      StoppedStays(r, es);
    }
  }

  lemma {:induction false} StoppedStays(r: Router, es: seq<Event>)
    requires r.phase.Stopped?
    ensures Run(r, es).phase.Stopped? && Run(r, es).log == r.log
  {
    if es != [] {
      StoppedStays(r, es[..|es| - 1]);
    }
  }
}
