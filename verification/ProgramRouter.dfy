/** The live switcher. It forwards the current source's tags on one continuous clock, and on a switch keeps
  * doing so until the new source yields a keyframe. Every branch of its event loop is one atomic step; relays,
  * header cache and audio routing belong to an environment that may change them between any two steps. */
module ProgramRouter {
  import opened Wrappers
  import opened Flv
  import opened TagReader

  const WRAP := 0x1_0000_0000

  datatype Routing = Routing(audioFollowsVideo: bool, activeAudioSource: Option<SourceId>)

  type Headers = map<SourceId, SequenceHeaders>

  function AudioSource(routing: Routing, video: SourceId): SourceId {
    if routing.audioFollowsVideo || routing.activeAudioSource.None? then video
    else routing.activeAudioSource.value
  }

  /** One published tag with its provenance: the source it came from, the pass of the outer loop that published
    * it, and whether that source's video header was cached when the pass, or the splice, began. */
  datatype LogEntry = LogEntry(tag: Tag, source: SourceId, segment: nat, headerCached: bool)

  /** A requested switch. Without a relay the receiver is closed from the start. */
  datatype Pending = Pending(source: SourceId, open: bool)

  /** The variables of one pass of the outer loop. */
  datatype Segment = Segment(
    source: SourceId, audioSource: SourceId, audioOpen: bool,
    gotKeyframe: bool, firstVideoTs: Option<U32>, firstAudioTs: Option<U32>, baseOutputTs: U32,
    pending: Option<Pending>, forwarded: nat, headerCached: bool)

  datatype Phase = Selecting | AwaitingSource | Forwarding(seg: Segment) | Stopped

  /** `watched` is the latest selection in the watch channel, and `unseen` says that the router has not read it yet. */
  datatype Router = Router(
    phase: Phase, outputTs: U32, segments: nat, log: seq<LogEntry>, watched: Option<SourceId>, unseen: bool)

  const START := Router(Selecting, 0, 0, [], None, false)

  /** What happens next: a selection is written to the watch, or the router wakes up in one of its branches. An event
    * whose branch is not waiting changes nothing. */
  datatype Event =
    | Selected(source: Option<SourceId>)
    | Select(routing: Routing, headers: Headers, videoRelay: bool, audioRelay: bool)
    | SourceChanged(relay: bool)
    | SourceWatchClosed
    | RoutingChanged
    | RoutingWatchClosed
    | PendingTag(tag: Tag, newRouting: Routing, newHeaders: Headers)
    | PendingLagged
    | PendingClosed
    | CurrentTag(tag: Tag)
    | CurrentLagged
    | CurrentClosed
    | AudioTag(tag: Tag)
    | AudioLagged
    | AudioClosed

  // ---------- the transition function ----------

  /** Where a tag with source time `ts` lands on the output clock of a segment. */
  function OnClock(ts: U32, first: U32, base: U32): U32 {
    (base + (ts - first) % WRAP) % WRAP
  }

  datatype Remapped = Remapped(tag: Tag, first: Option<U32>, outputTs: U32)

  function Remap(tag: Tag, first: Option<U32>, base: U32, outputTs: U32): Remapped {
    match ReadTimestamp(tag)
    case Some(ts) =>
      var f := first.GetOr(ts);
      Remapped(Rewritten(tag, OnClock(ts, f, base)), Some(f), OnClock(ts, f, base))
    case None => Remapped(tag, first, outputTs)
  }

  function VideoHeaderOf(headers: Headers, id: SourceId): Option<Tag> {
    if id in headers then headers[id].video else None
  }

  /** The audio header comes from the audio source, or from the video source when the audio source has no entry. */
  function AudioHeaderSource(headers: Headers, video: SourceId, audio: SourceId): SourceId {
    if audio in headers then audio else video
  }

  function AudioHeaderOf(headers: Headers, id: SourceId): Option<Tag> {
    if id in headers then headers[id].audio else None
  }

  /** The tags injected in front of a source. */
  function Injected(headers: Headers, video: SourceId, audio: SourceId, ts: U32, segment: nat): seq<LogEntry> {
    var cached := VideoHeaderOf(headers, video).Some?;
    var from := AudioHeaderSource(headers, video, audio);
    (if cached then [LogEntry(Rewritten(VideoHeaderOf(headers, video).value, ts), video, segment, cached)] else [])
    + (if AudioHeaderOf(headers, from).Some?
       then [LogEntry(Rewritten(AudioHeaderOf(headers, from).value, ts), from, segment, cached)] else [])
  }

  function Step(r: Router, e: Event): Router {
    if e.Selected? then r.(watched := e.source, unseen := true)
    else match r.phase
    case Selecting => SelectingStep(r, e)
    case AwaitingSource =>
      if e.SourceChanged? && r.unseen then r.(phase := Selecting, unseen := false)
      else if e.SourceWatchClosed? then r.(phase := Stopped)
      else r
    case Forwarding(seg) => ForwardingStep(r, seg, e)
    case Stopped => r
  }

  function SelectingStep(r: Router, e: Event): Router {
    match e
    case Select(routing, headers, videoRelay, audioRelay) =>
      if r.watched.None? then r.(unseen := false) else
      var id := r.watched.value;
      var audio := AudioSource(routing, id);
      var entered := r.(segments := r.segments + 1, unseen := false,
                        log := r.log + Injected(headers, id, audio, r.outputTs, r.segments + 1));
      if videoRelay then
        entered.(phase := Forwarding(Segment(id, audio, audio != id && audioRelay, false, None, None, r.outputTs,
                                             None, 0, VideoHeaderOf(headers, id).Some?)))
      else
        entered.(phase := AwaitingSource)
    case SourceWatchClosed => r.(phase := Stopped)
    case _ => r
  }

  function ForwardingStep(r: Router, seg: Segment, e: Event): Router {
    match e
    case SourceChanged(relay) =>
      if !r.unseen then r
      else if r.watched.None? || r.watched.value == seg.source then r.(unseen := false)
      else r.(unseen := false, phase := Forwarding(seg.(pending := Some(Pending(r.watched.value, relay)))))
    case SourceWatchClosed => r.(phase := Stopped)
    case RoutingChanged => r.(phase := Selecting)
    case RoutingWatchClosed => r.(phase := Stopped)
    case PendingTag(tag, routing, headers) =>
      if Splices(seg, tag) then Splice(r, seg.pending.value.source, tag, routing, headers) else r
    case PendingClosed => r.(phase := Forwarding(seg.(pending := None)))
    case CurrentTag(tag) => CurrentStep(r, seg, tag)
    case CurrentClosed => r.(phase := Selecting)
    case AudioTag(tag) =>
      if seg.audioOpen && IsAudio(tag) then
        var m := Remap(tag, seg.firstAudioTs, seg.baseOutputTs, r.outputTs);
        Publish(r, seg.(firstAudioTs := m.first), seg.audioSource, m)
      else r
    case AudioClosed => r.(phase := Forwarding(seg.(audioOpen := false)))
    case _ => r
  }

  /** A pending source takes over on its first keyframe. */
  predicate Splices(seg: Segment, tag: Tag) {
    seg.pending.Some? && seg.pending.value.open && !IsSequenceHeader(tag) && IsVideoKeyframe(tag)
  }

  function Splice(r: Router, source: SourceId, tag: Tag, routing: Routing, headers: Headers): Router {
    var m := Remap(tag, Some(ReadTimestamp(tag).GetOr(0)), r.outputTs, r.outputTs);
    r.(phase := Selecting,
       outputTs := m.outputTs,
       log := r.log + Injected(headers, source, AudioSource(routing, source), r.outputTs, r.segments)
              + [LogEntry(m.tag, source, r.segments, VideoHeaderOf(headers, source).Some?)])
  }

  function CurrentStep(r: Router, seg: Segment, tag: Tag): Router {
    var same := seg.source == seg.audioSource;
    if !seg.gotKeyframe && IsFrame(tag) && !IsVideoKeyframe(tag) then r
    else
      var got := seg.gotKeyframe || IsVideoKeyframe(tag);
      if !got && IsAudio(tag) && !same then r
      else if same || IsVideo(tag) || IsSequenceHeader(tag) then
        var m := Remap(tag, seg.firstVideoTs, seg.baseOutputTs, r.outputTs);
        Publish(r, seg.(firstVideoTs := m.first, gotKeyframe := got), seg.source, m)
      else r
  }

  function Publish(r: Router, seg: Segment, source: SourceId, m: Remapped): Router {
    r.(phase := Forwarding(seg.(forwarded := seg.forwarded + 1)),
       outputTs := m.outputTs,
       log := r.log + [LogEntry(m.tag, source, r.segments, seg.headerCached)])
  }

  function Run(r: Router, es: seq<Event>): Router {
    if es == [] then r else Step(Run(r, es[..|es| - 1]), es[|es| - 1])
  }

  /** The events do not end the segment. */
  ghost predicate Stays(r: Router, es: seq<Event>) {
    r.phase.Forwarding? && forall k | 0 <= k <= |es| :: Run(r, es[..k]).phase.Forwarding?
  }

  lemma RunExtends(r: Router, es: seq<Event>, e: Event)
    ensures Run(r, es + [e]) == Step(Run(r, es), e)
  {
    assert (es + [e])[..|es|] == es;
  }

  /** A run that stays is a shorter one that stays and one more event that does. */
  lemma StaysBefore(r: Router, es: seq<Event>)
    requires Stays(r, es)
    ensures r.phase.Forwarding? && Run(r, es).phase.Forwarding?
    ensures es != [] ==>
              && Stays(r, es[..|es| - 1])
              && Run(r, es) == Step(Run(r, es[..|es| - 1]), es[|es| - 1])
  {
    assert es[..0] == [] && es[..|es|] == es;
    if es != [] {
      var before := es[..|es| - 1];
      assert forall k | 0 <= k <= |before| :: before[..k] == es[..k];
    }
  }

  lemma StaysWith(r: Router, es: seq<Event>, e: Event)
    requires Stays(r, es) && Step(Run(r, es), e).phase.Forwarding?
    ensures Stays(r, es + [e])
  {
    RunExtends(r, es, e);
    forall k | 0 <= k <= |es + [e]| ensures Run(r, (es + [e])[..k]).phase.Forwarding? {
      if k <= |es| {
        assert (es + [e])[..k] == es[..k];
      } else {
        assert (es + [e])[..k] == es + [e];
      }
    }
  }

  // ---------- the imperative router ----------

  datatype Mode = InSelect | InAwait | InForward | Ended

  /** The router task. Its fields are the variables of the loops; `log` adds the provenance of what was sent. */
  class RouterTask {
    var mode: Mode
    var currentSourceId: SourceId
    var audioSourceId: SourceId
    var audioOpen: bool
    var gotKeyframe: bool
    var firstVideoTs: Option<U32>
    var firstAudioTs: Option<U32>
    var baseOutputTs: U32
    var pendingSwitch: Option<Pending>
    var forwarded: nat
    var outputTs: U32
    var programTx: seq<Tag>

    /** The receiver of the selection: the channel's latest value, and whether it has changed since it was read. */
    var watched: Option<SourceId>
    var unseen: bool

    ghost var headerCached: bool
    ghost var segments: nat
    ghost var log: seq<LogEntry>

    ghost predicate Valid()
      reads this`log, this`programTx
    {
      && |log| == |programTx|
      && forall i | 0 <= i < |log| :: log[i].tag == programTx[i]
    }

    ghost function State(): Router
      reads this
    {
      var phase := match mode
        case InSelect => Selecting
        case InAwait => AwaitingSource
        case InForward => Forwarding(Variables())
        case Ended => Stopped;
      Router(phase, outputTs, segments, log, watched, unseen)
    }

    ghost function Variables(): Segment
      reads this
    {
      Segment(currentSourceId, audioSourceId, audioOpen, gotKeyframe, firstVideoTs, firstAudioTs, baseOutputTs,
              pendingSwitch, forwarded, headerCached)
    }

    constructor ()
      ensures Valid() && State() == START && programTx == []
    {
      mode, currentSourceId, audioSourceId, audioOpen, gotKeyframe := InSelect, 0, 0, false, false;
      firstVideoTs, firstAudioTs, baseOutputTs, pendingSwitch, forwarded := None, None, 0, None, 0;
      outputTs, programTx, headerCached, segments, log := 0, [], false, 0, [];
      watched, unseen := None, false;
    }

    method BorrowAndUpdate() returns (current: Option<SourceId>)
      modifies this`unseen
      ensures current == watched && !unseen
    {
      current, unseen := watched, false;
    }

    method Send(tag: Tag, ghost source: SourceId, ghost cached: bool)
      requires Valid()
      modifies this`programTx, this`log
      ensures Valid() && log == old(log) + [LogEntry(tag, source, segments, cached)]
    {
      programTx := programTx + [tag];
      log := log + [LogEntry(tag, source, segments, cached)];
    }

    method SendSequenceHeaders(headers: Headers, videoSourceId: SourceId, audioSourceId: SourceId, ts: U32)
      requires Valid()
      modifies this`programTx, this`log
      ensures Valid() && log == old(log) + Injected(headers, videoSourceId, audioSourceId, ts, segments)
    {
      ghost var cached := VideoHeaderOf(headers, videoSourceId).Some?;
      if videoSourceId in headers && headers[videoSourceId].video.Some? {
        var remapped := RewriteTagTimestamp(headers[videoSourceId].video.value, ts);
        Send(remapped, videoSourceId, cached);
      }
      var audioSeq := if audioSourceId in headers then audioSourceId else videoSourceId;
      if audioSeq in headers && headers[audioSeq].audio.Some? {
        var remapped := RewriteTagTimestamp(headers[audioSeq].audio.value, ts);
        Send(remapped, audioSeq, cached);
      }
    }

    /** Writes the output clock; the first timestamp seen becomes the base of the relay. */
    method RemapTag(data: Tag, firstTs: Option<U32>, baseOutput: U32) returns (remapped: Tag, first: Option<U32>)
      modifies this`outputTs
      ensures Remapped(remapped, first, outputTs) == Remap(data, firstTs, baseOutput, old(outputTs))
    {
      remapped, first := data, firstTs;
      var srcTs := ReadTimestamp(data);
      if srcTs.Some? {
        if first.None? {
          first := srcTs;
        }
        var elapsed: U32 := (srcTs.value - first.value) % WRAP;
        var newTs: U32 := (baseOutput + elapsed) % WRAP;
        outputTs := newTs;
        remapped := RewriteTagTimestamp(data, newTs);
      }
    }

    method OnSelect(routing: Routing, headers: Headers, videoRelay: bool, audioRelay: bool)
      requires Valid() && mode == InSelect
      modifies this
      ensures Valid() && State() == SelectingStep(old(State()), Select(routing, headers, videoRelay, audioRelay))
    {
      hide Injected, VideoHeaderOf, Valid;
      var source := BorrowAndUpdate();
      if source.None? {
        return;
      }
      Announce(source.value, routing, headers);
      if !videoRelay {
        mode := InAwait;
        return;
      }
      BeginForwarding(currentSourceId != audioSourceId && audioRelay, VideoHeaderOf(headers, currentSourceId).Some?);
    }

    /** The sources of the segment, and the headers in front of it. */
    method Announce(id: SourceId, routing: Routing, headers: Headers)
      requires Valid()
      modifies this`currentSourceId, this`audioSourceId, this`segments, this`programTx, this`log
      ensures Valid() && currentSourceId == id && audioSourceId == AudioSource(routing, id)
          && segments == old(segments) + 1
      ensures log == old(log) + Injected(headers, id, AudioSource(routing, id), outputTs, segments)
    {
      currentSourceId := id;
      audioSourceId := if routing.audioFollowsVideo || routing.activeAudioSource.None? then currentSourceId
                       else routing.activeAudioSource.value;
      segments := segments + 1;
      SendSequenceHeaders(headers, currentSourceId, audioSourceId, outputTs);
    }

    method BeginForwarding(separateAudio: bool, ghost cached: bool)
      requires Valid()
      modifies this`mode, this`audioOpen, this`forwarded, this`gotKeyframe, this`firstVideoTs, this`firstAudioTs,
        this`baseOutputTs, this`pendingSwitch, this`headerCached
      ensures Valid() && mode == InForward
      ensures Variables() == Segment(currentSourceId, audioSourceId, separateAudio, false, None, None, outputTs, None,
          0, cached)
    {
      hide Valid;
      audioOpen, forwarded, gotKeyframe, firstVideoTs, firstAudioTs := separateAudio, 0, false, None, None;
      baseOutputTs, pendingSwitch, headerCached, mode := outputTs, None, cached, InForward;
    }

    method OnPendingTag(data: Tag, routing: Routing, headers: Headers)
      requires Valid() && mode.InForward?
      modifies this
      ensures Valid() && State() == ForwardingStep(old(State()), old(Variables()), PendingTag(data, routing, headers))
    {
      hide Remap, Injected;
      if pendingSwitch.None? || !pendingSwitch.value.open {
        return;
      }
      if IsSequenceHeader(data) {
        return;
      }
      if IsVideo(data) && IsVideoKeyframe(data) {
        var newId := pendingSwitch.value.source;
        var newAudioId := if routing.audioFollowsVideo || routing.activeAudioSource.None? then newId
                          else routing.activeAudioSource.value;
        SendSequenceHeaders(headers, newId, newAudioId, outputTs);
        var remapped, _ := RemapTag(data, Some(ReadTimestamp(data).GetOr(0)), outputTs);
        Send(remapped, newId, VideoHeaderOf(headers, newId).Some?);
        mode := InSelect;
      }
    }

    method OnCurrentTag(data: Tag)
      requires Valid() && mode.InForward?
      modifies this
      ensures Valid() && State() == CurrentStep(old(State()), old(Variables()), data)
    {
      hide Remap, Valid;
      var sameSource := currentSourceId == audioSourceId;
      if !gotKeyframe && IsVideo(data) {
        if IsVideoKeyframe(data) {
          gotKeyframe := true;
        } else if !IsSequenceHeader(data) {
          return;
        }
      }
      if !gotKeyframe && IsAudio(data) && !sameSource {
        return;
      }
      if sameSource || IsVideo(data) || IsSequenceHeader(data) {
        var remapped;
        remapped, firstVideoTs := RemapTag(data, firstVideoTs, baseOutputTs);
        Send(remapped, currentSourceId, headerCached);
        forwarded := forwarded + 1;
      }
    }

    method OnAudioTag(data: Tag)
      requires Valid() && mode.InForward?
      modifies this
      ensures Valid() && State() == ForwardingStep(old(State()), old(Variables()), AudioTag(data))
    {
      hide Remap;
      if audioOpen && IsAudio(data) {
        var remapped;
        remapped, firstAudioTs := RemapTag(data, firstAudioTs, baseOutputTs);
        Send(remapped, audioSourceId, headerCached);
        forwarded := forwarded + 1;
      }
    }

    /** The branches that only change which sources are watched. */
    method OnControl(e: Event)
      requires Valid() && mode.InForward?
      requires !e.Selected? && !e.Select? && !e.PendingTag? && !e.CurrentTag? && !e.AudioTag?
      modifies this
      ensures Valid() && State() == ForwardingStep(old(State()), old(Variables()), e)
    {
      match e {
        case SourceChanged(relay) =>
          if unseen {
            var newId := BorrowAndUpdate();
            if newId.Some? && newId.value != currentSourceId {
              pendingSwitch := Some(Pending(newId.value, relay));
            }
          }
        case SourceWatchClosed => mode := Ended;
        case RoutingChanged => mode := InSelect;
        case RoutingWatchClosed => mode := Ended;
        case PendingClosed => pendingSwitch := None;
        case CurrentClosed => mode := InSelect;
        case AudioClosed => audioOpen := false;
        case _ =>
      }
    }

    method OnEvent(e: Event)
      requires Valid()
      modifies this
      ensures Valid() && State() == Step(old(State()), e)
    {
      hide Remap, Injected, CurrentStep, Splice;
      if e.Selected? {
        watched, unseen := e.source, true;
        return;
      }
      match mode {
        case InSelect =>
          match e {
            case Select(routing, headers, videoRelay, audioRelay) => OnSelect(routing, headers, videoRelay, audioRelay);
            case SourceWatchClosed => mode := Ended;
            case _ =>
          }
        case InAwait =>
          match e {
            case SourceChanged(_) =>
              if unseen {
                var _ := BorrowAndUpdate();
                mode := InSelect;
              }
            case SourceWatchClosed => mode := Ended;
            case _ =>
          }
        case InForward =>
          match e {
            case Selected(_) =>
            case Select(_, _, _, _) =>
            case PendingTag(tag, routing, headers) => OnPendingTag(tag, routing, headers);
            case CurrentTag(tag) => OnCurrentTag(tag);
            case AudioTag(tag) => OnAudioTag(tag);
            case _ => OnControl(e);
          }
        case Ended =>
      }
    }

    /** The two nested loops, driven by any sequence of events. */
    method RunProgramRouter(events: seq<Event>)
      requires Valid()
      modifies this
      ensures Valid() && State() == Run(old(State()), events)
    {
      var i := 0;
      while i < |events|
        invariant 0 <= i <= |events| && Valid()
        invariant State() == Run(old(State()), events[..i])
      {
        var e := events[i];
        assert events[..i + 1][..i] == events[..i];
        OnEvent(e);
        i := i + 1;
      }
      assert events[..i] == events;
    }
  }
}
