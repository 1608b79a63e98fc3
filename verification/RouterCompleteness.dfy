/** Nothing is swallowed: what a segment publishes is, tag by tag and in the order of arrival, what its relays delivered
  * and its gate let through. */
module RouterCompleteness {
  import opened Wrappers
  import opened Flv
  import opened TagReader
  import opened ProgramRouter

  /** A tag but for its timestamp, and where it came from. */
  datatype Content = Content(body: Tag, source: SourceId)

  function ContentOf(tag: Tag, source: SourceId): Content { Content(Rewritten(tag, 0), source) }

  function Published(log: seq<LogEntry>): seq<Content> {
    if log == [] then [] else Published(log[..|log| - 1]) + [ContentOf(log[|log| - 1].tag, log[|log| - 1].source)]
  }

  /** Video waits for a keyframe, except headers. Of everything else, a source whose audio comes from elsewhere adds
    * only its headers, once it has had a keyframe. */
  predicate Passes(tag: Tag, ownAudio: bool, keyed: bool) {
    if IsVideo(tag) then IsSequenceHeader(tag) || keyed || IsVideoKeyframe(tag)
    else ownAudio || (keyed && IsSequenceHeader(tag))
  }

  /** A keyframe of the current source has arrived. */
  predicate Keyed(es: seq<Event>) { exists e | e in es :: e.CurrentTag? && IsVideoKeyframe(e.tag) }

  /** The separate audio relay has closed. */
  predicate AudioHasClosed(es: seq<Event>) { AudioClosed in es }

  /** What an event of a segment brings to the program. */
  function Arrival(seg: Segment, keyed: bool, audioClosed: bool, e: Event): seq<Content> {
    match e
    case CurrentTag(tag) =>
      if Passes(tag, seg.source == seg.audioSource, seg.gotKeyframe || keyed) then [ContentOf(tag, seg.source)] else []
    case AudioTag(tag) =>
      if seg.audioOpen && !audioClosed && IsAudio(tag) then [ContentOf(tag, seg.audioSource)] else []
    case _ => []
  }

  function Arrivals(seg: Segment, es: seq<Event>): seq<Content> {
    if es == [] then []
    else
      var before, e := es[..|es| - 1], es[|es| - 1];
      Arrivals(seg, before) + Arrival(seg, Keyed(before), AudioHasClosed(before), e)
  }

  lemma RemapKeepsContent(tag: Tag, first: Option<U32>, base: U32, outputTs: U32, source: SourceId)
    ensures ContentOf(Remap(tag, first, base, outputTs).tag, source) == ContentOf(tag, source)
  {
    if ReadTimestamp(tag).Some? {
      var ts := ReadTimestamp(tag).value;
      RewriteSetsTimestampOnly(tag, OnClock(ts, first.GetOr(ts), base), 0);
    }
  }

  /** The gate of the segment after some of its events. */
  predicate GateOk(seg: Segment, r: Router, keyed: bool, audioClosed: bool) {
    && r.phase.Forwarding?
    && r.phase.seg.source == seg.source && r.phase.seg.audioSource == seg.audioSource
    && (r.phase.seg.gotKeyframe <==> seg.gotKeyframe || keyed)
    && (r.phase.seg.audioOpen <==> seg.audioOpen && !audioClosed)
  }

  lemma OneMoreEvent(es: seq<Event>, e: Event)
    ensures Keyed(es + [e]) <==> Keyed(es) || (e.CurrentTag? && IsVideoKeyframe(e.tag))
    ensures AudioHasClosed(es + [e]) <==> AudioHasClosed(es) || e.AudioClosed?
  {
  }

  lemma PublishedOne(log: seq<LogEntry>, entry: LogEntry)
    ensures Published(log + [entry]) == Published(log) + [ContentOf(entry.tag, entry.source)]
  {
    assert (log + [entry])[..|log|] == log;
  }

  lemma CurrentArrives(seg: Segment, r: Router, keyed: bool, audioClosed: bool, tag: Tag)
    requires GateOk(seg, r, keyed, audioClosed)
    ensures var t := CurrentStep(r, r.phase.seg, tag);
            && GateOk(seg, t, keyed || IsVideoKeyframe(tag), audioClosed)
            && Published(t.log) == Published(r.log) + Arrival(seg, keyed, audioClosed, CurrentTag(tag))
  {
    hide Published, Remap, ContentOf;
    var now := r.phase.seg;
    var m := Remap(tag, now.firstVideoTs, now.baseOutputTs, r.outputTs);
    RemapKeepsContent(tag, now.firstVideoTs, now.baseOutputTs, r.outputTs, now.source);
    PublishedOne(r.log, LogEntry(m.tag, now.source, r.segments, now.headerCached));
  }

  lemma AudioArrives(seg: Segment, r: Router, keyed: bool, audioClosed: bool, tag: Tag)
    requires GateOk(seg, r, keyed, audioClosed)
    ensures var t := ForwardingStep(r, r.phase.seg, AudioTag(tag));
            && GateOk(seg, t, keyed, audioClosed)
            && Published(t.log) == Published(r.log) + Arrival(seg, keyed, audioClosed, AudioTag(tag))
  {
    hide Published, Remap, ContentOf;
    var now := r.phase.seg;
    var m := Remap(tag, now.firstAudioTs, now.baseOutputTs, r.outputTs);
    RemapKeepsContent(tag, now.firstAudioTs, now.baseOutputTs, r.outputTs, now.audioSource);
    PublishedOne(r.log, LogEntry(m.tag, now.audioSource, r.segments, now.headerCached));
  }

  /** One event of a segment publishes its tag exactly if the gate lets it through. */
  lemma StepArrives(seg: Segment, r: Router, before: seq<Event>, e: Event)
    requires GateOk(seg, r, Keyed(before), AudioHasClosed(before))
    requires Step(r, e).phase.Forwarding?
    ensures GateOk(seg, Step(r, e), Keyed(before + [e]), AudioHasClosed(before + [e]))
    ensures Published(Step(r, e).log) == Published(r.log) + Arrival(seg, Keyed(before), AudioHasClosed(before), e)
  {
    hide Published, CurrentStep, Splice, Keyed, AudioHasClosed;
    OneMoreEvent(before, e);
    match e
    case CurrentTag(tag) => CurrentArrives(seg, r, Keyed(before), AudioHasClosed(before), tag);
    case AudioTag(tag) => AudioArrives(seg, r, Keyed(before), AudioHasClosed(before), tag);
    case PendingTag(tag, routing, headers) => SpliceEnds(r, tag, routing, headers);
    case _ =>
  }

  lemma SpliceEnds(r: Router, tag: Tag, routing: Routing, headers: Headers)
    requires r.phase.Forwarding?
    ensures Splices(r.phase.seg, tag) ==> !Step(r, PendingTag(tag, routing, headers)).phase.Forwarding?
  {
  }

  /** While a segment lasts, the program grows by exactly the tags its gate lets through, each once, in the order of
    * arrival, with nothing but the timestamp rewritten. */
  lemma {:induction false} SegmentPublishesArrivals(r: Router, es: seq<Event>)
    requires Stays(r, es)
    ensures Run(r, []) == r && r.phase.Forwarding?
    ensures GateOk(r.phase.seg, Run(r, es), Keyed(es), AudioHasClosed(es))
    ensures Published(Run(r, es).log) == Published(r.log) + Arrivals(r.phase.seg, es)
  {
    hide Step, Keyed, AudioHasClosed, GateOk;
    assert es[..0] == [] && Run(r, []) == r;
    if es == [] {
      NoEvents(r);
    } else {
      var before, e := es[..|es| - 1], es[|es| - 1];
      assert Stays(r, before) by {
        assert forall k | 0 <= k <= |before| :: before[..k] == es[..k];
      }
      SegmentPublishesArrivals(r, before);
      assert es == before + [e];
      assert es[..|es|] == es;
      StepArrives(r.phase.seg, Run(r, before), before, e);
    }
  }

  lemma NoEvents(r: Router)
    requires r.phase.Forwarding?
    ensures GateOk(r.phase.seg, r, Keyed([]), AudioHasClosed([]))
  {
  }

  lemma Entering(r: Router, select: Event)
    requires r.phase.Selecting? && select.Select? && r.watched.Some? && select.videoRelay
    ensures var entered, id := Step(r, select), r.watched.value;
            && entered.phase.Forwarding?
            && entered.phase.seg.source == id && entered.phase.seg.audioSource == AudioSource(select.routing, id)
            && !entered.phase.seg.gotKeyframe
            && (entered.phase.seg.audioOpen <==> select.audioRelay && entered.phase.seg.audioSource != id)
            && entered.log == r.log + Injected(select.headers, id, AudioSource(select.routing, id), r.outputTs,
                  r.segments + 1)
  {
  }

  /** A whole segment, from the moment it is entered: the cached headers, then what arrives. */
  lemma SegmentFromItsStart(r: Router, select: Event, es: seq<Event>)
    requires r.phase.Selecting? && select.Select? && r.watched.Some? && select.videoRelay
    requires Stays(Step(r, select), es)
    ensures var entered, id, audio := Step(r, select), r.watched.value, AudioSource(select.routing, r.watched.value);
            && entered.phase.Forwarding? && entered.phase.seg.source == id && entered.phase.seg.audioSource == audio
            && !entered.phase.seg.gotKeyframe && (entered.phase.seg.audioOpen <==> select.audioRelay && audio != id)
            && Published(Run(entered, es).log)
               == Published(r.log + Injected(select.headers, id, audio, r.outputTs, r.segments + 1))
                   + Arrivals(entered.phase.seg, es)
  {
    hide Step, Injected, Published, Arrivals, AudioSource, Stays;
    Entering(r, select);
    SegmentPublishesArrivals(Step(r, select), es);
  }
}
