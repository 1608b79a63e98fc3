/** What every run of the router keeps, whatever the environment does: no inter frame without its keyframe,
  * no frame without its codec header, and nothing malformed on the program relay. */
module RouterSplices {
  import opened Wrappers
  import opened Flv
  import opened TagReader
  import opened ProgramRouter

  // ---------- what is asked of the environment ----------

  /** Cached headers are what the readers put there: see TagReader.CacheStaysWellFormed. */
  ghost predicate HeadersOk(headers: Headers) {
    forall id | id in headers :: WellFormed(headers[id])
  }

  ghost predicate EventOk(e: Event) {
    match e
    case Select(_, headers, _, _) => HeadersOk(headers)
    case PendingTag(_, _, headers) => HeadersOk(headers)
    case _ => true
  }

  ghost predicate EventsOk(es: seq<Event>) {
    forall e | e in es :: EventOk(e)
  }

  // ---------- the properties, read off the log ----------

  /** Entry i has an earlier keyframe of its source in its segment, with no other source's video in between. */
  ghost predicate KeyframeBefore(log: seq<LogEntry>, i: nat)
    requires i < |log|
  {
    exists j | 0 <= j < i ::
      && IsVideoKeyframe(log[j].tag) && log[j].source == log[i].source && log[j].segment == log[i].segment
      && forall k | j < k < i && IsVideo(log[k].tag) :: log[k].source == log[i].source
  }

  /** Entry i has an earlier video codec header of its source, with no other source's video in between. */
  ghost predicate HeaderBefore(log: seq<LogEntry>, i: nat)
    requires i < |log|
  {
    exists j | 0 <= j < i ::
      && IsVideoHeader(log[j].tag) && log[j].source == log[i].source
      && forall k | j < k < i && IsVideo(log[k].tag) :: log[k].source == log[i].source
  }

  // ---------- the same, computed from the end of the log ----------

  ghost predicate AfterKeyframe(log: seq<LogEntry>, source: SourceId, segment: nat) {
    log != [] &&
    var e, init := log[|log| - 1], log[..|log| - 1];
    if IsVideo(e.tag) then
      e.source == source && ((IsVideoKeyframe(e.tag) && e.segment == segment) || AfterKeyframe(init, source, segment))
    else AfterKeyframe(init, source, segment)
  }

  ghost predicate AfterHeader(log: seq<LogEntry>, source: SourceId) {
    log != [] &&
    var e, init := log[|log| - 1], log[..|log| - 1];
    if IsVideo(e.tag) then e.source == source && (IsVideoHeader(e.tag) || AfterHeader(init, source))
    else AfterHeader(init, source)
  }

  lemma {:induction false} FindKeyframe(log: seq<LogEntry>, source: SourceId, segment: nat) returns (j: nat)
    requires AfterKeyframe(log, source, segment)
    ensures j < |log| && IsVideoKeyframe(log[j].tag) && log[j].source == source && log[j].segment == segment
    ensures forall k | j < k < |log| && IsVideo(log[k].tag) :: log[k].source == source
  {
    var n := |log| - 1;
    if IsVideoKeyframe(log[n].tag) && log[n].segment == segment {
      j := n;
    } else {
      j := FindKeyframe(log[..n], source, segment);
    }
  }

  lemma {:induction false} FindHeader(log: seq<LogEntry>, source: SourceId) returns (j: nat)
    requires AfterHeader(log, source)
    ensures j < |log| && IsVideoHeader(log[j].tag) && log[j].source == source
    ensures forall k | j < k < |log| && IsVideo(log[k].tag) :: log[k].source == source
  {
    var n := |log| - 1;
    if IsVideoHeader(log[n].tag) {
      j := n;
    } else {
      j := FindHeader(log[..n], source);
    }
  }

  // ---------- the invariant ----------

  /** Appending e to the log is justified: an inter frame by a keyframe, a frame of a cached source by its header. */
  ghost predicate Justified(log: seq<LogEntry>, e: LogEntry) {
    && (IsInterFrame(e.tag) ==> AfterKeyframe(log, e.source, e.segment))
    && (IsFrame(e.tag) && e.headerCached ==> AfterHeader(log, e.source))
  }

  ghost predicate LogOk(log: seq<LogEntry>) {
    forall i | 0 <= i < |log| :: Justified(log[..i], log[i])
  }

  ghost predicate PhaseOk(r: Router) {
    r.phase.Forwarding? ==>
      && (r.phase.seg.gotKeyframe ==> AfterKeyframe(r.log, r.phase.seg.source, r.segments))
      && (r.phase.seg.headerCached ==> AfterHeader(r.log, r.phase.seg.source))
  }

  ghost predicate Inv(r: Router) { LogOk(r.log) && PhaseOk(r) }

  lemma Append(log: seq<LogEntry>, e: LogEntry)
    requires LogOk(log) && Justified(log, e)
    ensures LogOk(log + [e])
    ensures !IsVideo(e.tag) ==> forall s, n :: AfterKeyframe(log, s, n) ==> AfterKeyframe(log + [e], s, n)
    ensures !IsVideo(e.tag) ==> forall s :: AfterHeader(log, s) ==> AfterHeader(log + [e], s)
    ensures IsVideo(e.tag) && AfterKeyframe(log, e.source, e.segment) ==> AfterKeyframe(log + [e], e.source, e.segment)
    ensures IsVideo(e.tag) && AfterHeader(log, e.source) ==> AfterHeader(log + [e], e.source)
    ensures IsVideoKeyframe(e.tag) ==> AfterKeyframe(log + [e], e.source, e.segment)
    ensures IsVideoHeader(e.tag) ==> AfterHeader(log + [e], e.source)
  {
    var longer := log + [e];
    assert longer[..|log|] == log;
    forall i | 0 <= i < |longer| ensures Justified(longer[..i], longer[i]) {
      if i < |log| {
        assert longer[..i] == log[..i];
      }
    }
  }

  lemma InjectedIsHarmless(log: seq<LogEntry>, headers: Headers, video: SourceId, audio: SourceId, ts: U32,
      segment: nat)
    requires LogOk(log) && HeadersOk(headers)
    ensures LogOk(log + Injected(headers, video, audio, ts, segment))
    ensures VideoHeaderOf(headers, video).Some? ==> AfterHeader(log + Injected(headers, video, audio, ts, segment),
        video)
  {
    hide Rewritten, ReaderKind;
    var v, from := VideoHeaderOf(headers, video), AudioHeaderSource(headers, video, audio);
    var a := AudioHeaderOf(headers, from);
    var mid := log;
    if v.Some? {
      CachedHeadersAreRecognised(headers[video]);
      RewriteKeepsClass(v.value, ts);
      var e := LogEntry(Rewritten(v.value, ts), video, segment, true);
      Append(log, e);
      mid := log + [e];
    }
    if a.Some? {
      CachedHeadersAreRecognised(headers[from]);
      RewriteKeepsClass(a.value, ts);
      var e := LogEntry(Rewritten(a.value, ts), from, segment, v.Some?);
      Append(mid, e);
      assert log + Injected(headers, video, audio, ts, segment) == mid + [e];
    } else {
      assert log + Injected(headers, video, audio, ts, segment) == mid;
    }
  }

  lemma RemapKeepsClass(tag: Tag, first: Option<U32>, base: U32, outputTs: U32)
    ensures var out := Remap(tag, first, base, outputTs).tag;
            && IsVideo(out) == IsVideo(tag) && IsAudio(out) == IsAudio(tag)
            && IsVideoKeyframe(out) == IsVideoKeyframe(tag) && IsSequenceHeader(out) == IsSequenceHeader(tag)
            && (Framed(out) <==> Framed(tag))
  {
    hide Rewritten, OnClock;
    var ts := ReadTimestamp(tag);
    if ts.Some? {
      RewriteKeepsClass(tag, OnClock(ts.value, first.GetOr(ts.value), base));
      RewriteKeepsFraming(tag, OnClock(ts.value, first.GetOr(ts.value), base));
    }
  }

  lemma CurrentStepKeepsInv(r: Router, tag: Tag)
    requires Inv(r) && r.phase.Forwarding?
    ensures Inv(CurrentStep(r, r.phase.seg, tag))
  {
    hide Remap;
    var seg := r.phase.seg;
    var m := Remap(tag, seg.firstVideoTs, seg.baseOutputTs, r.outputTs);
    RemapKeepsClass(tag, seg.firstVideoTs, seg.baseOutputTs, r.outputTs);
    if CurrentStep(r, seg, tag) != r {
      Append(r.log, LogEntry(m.tag, seg.source, r.segments, seg.headerCached));
    }
  }

  lemma AudioStepKeepsInv(r: Router, tag: Tag)
    requires Inv(r) && r.phase.Forwarding?
    ensures Inv(ForwardingStep(r, r.phase.seg, AudioTag(tag)))
  {
    hide Remap;
    var seg := r.phase.seg;
    if seg.audioOpen && IsAudio(tag) {
      RemapKeepsClass(tag, seg.firstAudioTs, seg.baseOutputTs, r.outputTs);
      var m := Remap(tag, seg.firstAudioTs, seg.baseOutputTs, r.outputTs);
      Append(r.log, LogEntry(m.tag, seg.audioSource, r.segments, seg.headerCached));
    }
  }

  lemma SpliceKeepsInv(r: Router, source: SourceId, tag: Tag, routing: Routing, headers: Headers)
    requires Inv(r) && HeadersOk(headers) && IsVideoKeyframe(tag)
    ensures Inv(Splice(r, source, tag, routing, headers))
  {
    hide Remap, Injected;
    var audio := AudioSource(routing, source);
    InjectedIsHarmless(r.log, headers, source, audio, r.outputTs, r.segments);
    RemapKeepsClass(tag, Some(ReadTimestamp(tag).GetOr(0)), r.outputTs, r.outputTs);
    var m := Remap(tag, Some(ReadTimestamp(tag).GetOr(0)), r.outputTs, r.outputTs);
    Append(r.log + Injected(headers, source, audio, r.outputTs, r.segments),
           LogEntry(m.tag, source, r.segments, VideoHeaderOf(headers, source).Some?));
  }

  lemma StepKeepsInv(r: Router, e: Event)
    requires Inv(r) && EventOk(e)
    ensures Inv(Step(r, e))
  {
    hide CurrentStep, Splice, Injected, LogOk;
    match r.phase {
      case Selecting =>
        if e.Select? && r.watched.Some? {
          var id := r.watched.value;
          InjectedIsHarmless(r.log, e.headers, id, AudioSource(e.routing, id), r.outputTs, r.segments + 1);
        }
      case Forwarding(seg) =>
        match e {
          case CurrentTag(tag) => CurrentStepKeepsInv(r, tag);
          case AudioTag(tag) => AudioStepKeepsInv(r, tag);
          case PendingTag(tag, routing, headers) =>
            if Splices(seg, tag) {
              SpliceKeepsInv(r, seg.pending.value.source, tag, routing, headers);
            }
          case _ =>
        }
      case _ =>
    }
  }

  lemma {:induction false} RunKeepsInv(r: Router, es: seq<Event>)
    requires Inv(r) && EventsOk(es)
    ensures Inv(Run(r, es))
  {
    if es != [] {
      RunKeepsInv(r, es[..|es| - 1]);
      StepKeepsInv(Run(r, es[..|es| - 1]), es[|es| - 1]);
    }
  }

  // ---------- the theorems ----------

  /** Splice safety: on every run, every published inter frame follows a keyframe of its own source in its own
    * segment, and every video tag published between the two is from that source as well. */
  lemma SpliceSafety(es: seq<Event>, i: nat)
    requires EventsOk(es) && i < |Run(START, es).log| && IsInterFrame(Run(START, es).log[i].tag)
    ensures KeyframeBefore(Run(START, es).log, i)
  {
    RunKeepsInv(START, es);
    var log := Run(START, es).log;
    assert Justified(log[..i], log[i]);
    var j := FindKeyframe(log[..i], log[i].source, log[i].segment);
    assert forall k | 0 <= k < i :: log[..i][k] == log[k];
  }

  /** Codec header first: if the source's video header was cached when its segment or splice began, a video header
    * of that source precedes every one of its frames with no other source's video tag in between. */
  lemma CodecHeaderFirst(es: seq<Event>, i: nat)
    requires EventsOk(es) && i < |Run(START, es).log|
    requires IsFrame(Run(START, es).log[i].tag) && Run(START, es).log[i].headerCached
    ensures HeaderBefore(Run(START, es).log, i)
  {
    RunKeepsInv(START, es);
    var log := Run(START, es).log;
    assert Justified(log[..i], log[i]);
    var j := FindHeader(log[..i], log[i].source);
    assert forall k | 0 <= k < i :: log[..i][k] == log[k];
  }

  // ---------- framing ----------

  ghost predicate TagsFramed(e: Event) {
    match e
    case CurrentTag(tag) => Framed(tag)
    case PendingTag(tag, _, _) => Framed(tag)
    case AudioTag(tag) => Framed(tag)
    case _ => true
  }

  ghost predicate LogFramed(log: seq<LogEntry>) {
    forall i | 0 <= i < |log| :: Framed(log[i].tag)
  }

  lemma InjectedIsFramed(headers: Headers, video: SourceId, audio: SourceId, ts: U32, segment: nat)
    requires HeadersOk(headers)
    ensures LogFramed(Injected(headers, video, audio, ts, segment))
  {
    hide Rewritten, Framed, ReaderKind;
    var v, a := VideoHeaderOf(headers, video), AudioHeaderOf(headers, AudioHeaderSource(headers, video, audio));
    if v.Some? {
      RewriteKeepsFraming(v.value, ts);
    }
    if a.Some? {
      RewriteKeepsFraming(a.value, ts);
    }
  }

  lemma StepKeepsFraming(r: Router, e: Event)
    requires LogFramed(r.log) && EventOk(e) && TagsFramed(e)
    ensures LogFramed(Step(r, e).log)
  {
    hide Remap, Injected, Framed;
    match (r.phase, e) {
      case (Selecting, Select(routing, headers, _, _)) =>
        if r.watched.Some? {
          var id := r.watched.value;
          InjectedIsFramed(headers, id, AudioSource(routing, id), r.outputTs, r.segments + 1);
        }
      case (Forwarding(seg), CurrentTag(tag)) =>
        RemapKeepsClass(tag, seg.firstVideoTs, seg.baseOutputTs, r.outputTs);
      case (Forwarding(seg), AudioTag(tag)) =>
        RemapKeepsClass(tag, seg.firstAudioTs, seg.baseOutputTs, r.outputTs);
      case (Forwarding(seg), PendingTag(tag, routing, headers)) =>
        if Splices(seg, tag) {
          var source := seg.pending.value.source;
          InjectedIsFramed(headers, source, AudioSource(routing, source), r.outputTs, r.segments);
          RemapKeepsClass(tag, Some(ReadTimestamp(tag).GetOr(0)), r.outputTs, r.outputTs);
        }
      case _ =>
    }
  }

  /** Framed relays and caches give a framed program: whoever reads the published tags back to back as a byte
    * stream gets exactly those tags. */
  lemma {:induction false} ProgramReadsBack(es: seq<Event>)
    requires EventsOk(es) && forall e | e in es :: TagsFramed(e)
    ensures LogFramed(Run(START, es).log)
    ensures Tags(Concat(ProgramTags(Run(START, es).log))) == ProgramTags(Run(START, es).log)
  {
    if es != [] {
      ProgramReadsBack(es[..|es| - 1]);
      StepKeepsFraming(Run(START, es[..|es| - 1]), es[|es| - 1]);
    }
    var tags := ProgramTags(Run(START, es).log);
    TagsOfConcat(tags, []);
    assert Concat(tags) + [] == Concat(tags);
  }

  function ProgramTags(log: seq<LogEntry>): (tags: seq<Tag>)
    ensures |tags| == |log| && forall i | 0 <= i < |log| :: tags[i] == log[i].tag
  {
    seq(|log|, i requires 0 <= i < |log| => log[i].tag)
  }
}
