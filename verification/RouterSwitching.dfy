/** Gapless switching and where it ends: within a segment a switch that has not seen its keyframe is invisible on the
  * program; which source takes over, and when the old one is cut at once, is decided by the last selection. */
module RouterSwitching {
  import opened Wrappers
  import opened Flv
  import opened TagReader
  import opened ProgramRouter
  import opened RouterCompleteness
  import opened RouterSplices

  /** The event is the keyframe a pending switch was waiting for. */
  predicate IsSplice(r: Router, e: Event) {
    r.phase.Forwarding? && e.PendingTag? && Splices(r.phase.seg, e.tag)
  }

  // ---------- within a segment ----------

  /** An event that only concerns a switch: a new selection, its observation, or anything on the pending relay. */
  predicate ConcernsSwitch(e: Event) {
    e.Selected? || e.SourceChanged? || e.PendingTag? || e.PendingLagged? || e.PendingClosed?
  }

  /** The run without every event that only concerns a switch. */
  function Erase(es: seq<Event>): seq<Event> {
    if es == [] then []
    else Erase(es[..|es| - 1]) + (if ConcernsSwitch(es[|es| - 1]) then [] else [es[|es| - 1]])
  }

  /** The state without the selection and the pending switch. */
  function Forget(r: Router): Router {
    var r := r.(watched := None, unseen := false);
    if r.phase.Forwarding? then r.(phase := Forwarding(r.phase.seg.(pending := None))) else r
  }

  lemma SwitchEventsAreInvisible(r: Router, e: Event)
    requires ConcernsSwitch(e) && r.phase.Forwarding? && Step(r, e).phase.Forwarding?
    ensures Forget(Step(r, e)) == Forget(r)
  {
    hide Remap, Injected;
  }

  lemma OtherEventsIgnoreTheSwitch(a: Router, b: Router, e: Event)
    requires !ConcernsSwitch(e) && a.phase.Forwarding? && Forget(a) == Forget(b)
    ensures Forget(Step(a, e)) == Forget(Step(b, e))
  {
    hide Remap, Injected;
  }

  /** Over a whole run within a segment, deleting every selection and everything on the pending relays changes
    * neither the published tags nor the clock nor any other variable of the segment. */
  lemma {:induction false} GaplessSwitching(r: Router, es: seq<Event>)
    requires Stays(r, es)
    ensures Stays(r, Erase(es)) && Forget(Run(r, es)) == Forget(Run(r, Erase(es)))
    ensures Run(r, es).log == Run(r, Erase(es)).log && Run(r, es).outputTs == Run(r, Erase(es)).outputTs
  {
    hide Step, Stays;
    StaysBefore(r, es);
    if es == [] {
      assert Stays(r, []);
    } else {
      var before, e := es[..|es| - 1], es[|es| - 1];
      GaplessSwitching(r, before);
      StaysBefore(r, before);
      if ConcernsSwitch(e) {
        SwitchEventsAreInvisible(Run(r, before), e);
        assert Erase(es) == Erase(before);
      } else {
        OtherEventsIgnoreTheSwitch(Run(r, before), Run(r, Erase(before)), e);
        RunExtends(r, Erase(before), e);
        StaysWith(r, Erase(before), e);
      }
    }
  }

  /** What a splice publishes: the new source's cached headers and its keyframe, all at the current output time,
    * and nothing else; the clock does not move. */
  lemma SplicePublishes(r: Router, e: Event)
    requires IsSplice(r, e)
    ensures var source := r.phase.seg.pending.value.source;
            var key := LogEntry(Rewritten(e.tag, r.outputTs), source, r.segments,
                VideoHeaderOf(e.newHeaders, source).Some?);
            && Step(r, e).log == r.log
                 + Injected(e.newHeaders, source, AudioSource(e.newRouting, source), r.outputTs, r.segments) + [key]
            && Step(r, e).outputTs == r.outputTs
            && Step(r, e).phase == Selecting
  {
    var ts := ReadTimestamp(e.tag).value;
    assert OnClock(ts, ts, r.outputTs) == r.outputTs;
  }

  // ---------- which source is spliced in ----------

  /** The router wakes up for a changed selection and reads it. */
  predicate Observes(r: Router, e: Event) { r.phase.Forwarding? && e.SourceChanged? && r.unseen }

  /** The last selection read within a segment, if any has been. */
  function LastObserved(r: Router, es: seq<Event>): Option<Option<SourceId>> {
    if es == [] then None
    else
      var before, e := es[..|es| - 1], es[|es| - 1];
      if Observes(Run(r, before), e) then Some(Run(r, before).watched) else LastObserved(r, before)
  }

  /** The last selection read that was of another source. */
  function LastOther(r: Router, es: seq<Event>, source: SourceId): Option<SourceId> {
    if es == [] then None
    else
      var before, e := es[..|es| - 1], es[|es| - 1];
      var read := Run(r, before).watched;
      if Observes(Run(r, before), e) && read.Some? && read.value != source then read else LastOther(r, before, source)
  }

  /** What one event of a segment does to the pending switch. */
  lemma PendingStep(r: Router, e: Event)
    requires r.phase.Forwarding? && Step(r, e).phase.Forwarding?
    ensures var seg, after := r.phase.seg, Step(r, e).phase.seg;
            && after.source == seg.source && Step(r, e).segments == r.segments
            && after.pending == if Observes(r, e) && r.watched.Some? && r.watched.value != seg.source
                                then Some(Pending(r.watched.value, e.relay))
                                else if e.PendingClosed? then None else seg.pending
  {
    hide Remap, Injected;
  }

  lemma {:induction false} PendingIsLastOther(r: Router, es: seq<Event>)
    requires Stays(r, es) && r.phase.seg.pending.None?
    ensures r.phase.Forwarding? && Run(r, es).phase.Forwarding? && Run(r, es).phase.seg.source == r.phase.seg.source
    ensures var pending := Run(r, es).phase.seg.pending;
            pending.Some? ==> Some(pending.value.source) == LastOther(r, es, r.phase.seg.source)
  {
    hide Stays, Step;
    StaysBefore(r, es);
    if es != [] {
      PendingIsLastOther(r, es[..|es| - 1]);
      StaysBefore(r, es[..|es| - 1]);
      PendingStep(Run(r, es[..|es| - 1]), es[|es| - 1]);
    }
  }

  lemma {:induction false} LastObservedIsOther(r: Router, es: seq<Event>, source: SourceId)
    ensures LastOther(r, es, source).Some? ==> LastOther(r, es, source).value != source && LastObserved(r, es).Some?
    ensures var seen := LastObserved(r, es);
            seen.Some? && seen.value.Some? && seen.value.value != source ==> LastOther(r, es, source) == seen.value
  {
    hide Run;
    if es != [] {
      LastObservedIsOther(r, es[..|es| - 1], source);
    }
  }

  /** In a segment entered without a pending switch, the source spliced in is the last selection read if and only if
    * that selection is of another source: selecting the current source again, or nothing, does not withdraw a
    * request. */
  lemma SplicedIsSelectedExactly(r: Router, es: seq<Event>, e: Event)
    requires Stays(r, es) && r.phase.seg.pending.None? && IsSplice(Run(r, es), e)
    ensures LastObserved(r, es).Some?
    ensures var last := LastObserved(r, es).value;
            var spliced := Run(r, es).phase.seg.pending.value.source;
            && (last == Some(spliced) <==> last.Some? && last.value != r.phase.seg.source)
            && (!Run(r, es).unseen ==> last == Run(r, es).watched)
  {
    PendingIsLastOther(r, es);
    LastObservedIsOther(r, es, r.phase.seg.source);
    ReadIsLatest(r, es);
  }

  /** When nothing is left to read, the last selection read is the latest one. */
  lemma {:induction false} ReadIsLatest(r: Router, es: seq<Event>)
    requires Stays(r, es)
    ensures LastObserved(r, es).Some? && !Run(r, es).unseen ==> LastObserved(r, es).value == Run(r, es).watched
  {
    hide Stays, Step;
    StaysBefore(r, es);
    if es != [] {
      var before, e := es[..|es| - 1], es[|es| - 1];
      ReadIsLatest(r, before);
      StaysBefore(r, before);
      WatchStep(Run(r, before), e);
    }
  }

  /** What one event of a segment does to the watch. */
  lemma WatchStep(r: Router, e: Event)
    requires r.phase.Forwarding? && Step(r, e).phase.Forwarding?
    ensures Step(r, e).watched == if e.Selected? then e.source else r.watched
    ensures Step(r, e).unseen == (e.Selected? || (r.unseen && !Observes(r, e)))
  {
    hide Remap, Injected;
  }

  /** A selection that has not been read yet does not stop the request before it either. */
  lemma UnreadSelectionSplices(r: Router, id: SourceId, later: Option<SourceId>, e: Event)
    requires r.phase.Forwarding? && id != r.phase.seg.source && e.PendingTag? && IsVideoKeyframe(e.tag)
    ensures var unread := Step(Step(Step(r, Selected(Some(id))), SourceChanged(true)), Selected(later));
            && unread.watched == later && unread.unseen && IsSplice(unread, e)
            && unread.phase.seg.pending == Some(Pending(id, true))
  {
  }

  /** A request followed by the selection of nothing, or of the current source, is still pending. */
  lemma StalePendingSwitch(r: Router, id: SourceId, back: Option<SourceId>, e: Event)
    requires r.phase.Forwarding? && id != r.phase.seg.source && (back == None || back == Some(r.phase.seg.source))
    requires e.PendingTag? && IsVideoKeyframe(e.tag)
    ensures var es := [Selected(Some(id)), SourceChanged(true), Selected(back), SourceChanged(true)];
            var stale := Run(r, es);
            && stale.watched == back && !stale.unseen && IsSplice(stale, e)
            && Step(stale, e).log != [] && Step(stale, e).log[|Step(stale, e).log| - 1].source == id
  {
    hide Injected, Remap, Step;
    RunOfFour(r, Selected(Some(id)), SourceChanged(true), Selected(back), SourceChanged(true));
    RequestTwice(r, id, back);
    SplicePublishes(Run(r, [Selected(Some(id)), SourceChanged(true), Selected(back), SourceChanged(true)]), e);
  }

  lemma RunOfFour(r: Router, a: Event, b: Event, c: Event, d: Event)
    ensures Run(r, [a, b, c, d]) == Step(Step(Step(Step(r, a), b), c), d)
  {
    hide Step;
    RunExtends(r, [], a);
    RunExtends(r, [a], b);
    RunExtends(r, [a, b], c);
    RunExtends(r, [a, b, c], d);
    assert [] + [a] == [a] && [a] + [b] == [a, b] && [a, b] + [c] == [a, b, c] && [a, b, c] + [d] == [a, b, c, d];
  }

  lemma RequestTwice(r: Router, id: SourceId, back: Option<SourceId>)
    requires r.phase.Forwarding? && id != r.phase.seg.source && (back == None || back == Some(r.phase.seg.source))
    ensures Step(Step(Step(Step(r, Selected(Some(id))), SourceChanged(true)), Selected(back)), SourceChanged(true))
         == r.(watched := back, unseen := false, phase := Forwarding(r.phase.seg.(pending := Some(Pending(id, true)))))
  {
  }

  // ---------- whether a request can succeed ----------

  /** A switch to a source without a relay is aborted rather than awaited: its receiver delivers nothing but its own
    * closing, after which no trace of the request is left. */
  lemma SwitchWithoutRelayIsAborted(r: Router, tag: Tag, routing: Routing, headers: Headers)
    requires Observes(r, SourceChanged(false)) && r.watched.Some? && r.watched.value != r.phase.seg.source
    ensures var requested := Step(r, SourceChanged(false));
            && Step(requested, PendingTag(tag, routing, headers)) == requested
            && Forget(Step(requested, PendingClosed)) == Forget(r)
                  && Step(requested, PendingClosed).phase.seg.pending.None?
  {
  }

  ghost predicate NoNewRequest(es: seq<Event>) { forall e | e in es :: !e.SourceChanged? }

  /** Some continuation of the segment without a further request ends in a splice. */
  ghost predicate CanSplice(r: Router) {
    exists es, e :: NoNewRequest(es) && Stays(r, es) && IsSplice(Run(r, es), e)
  }

  lemma {:induction false} ClosedStaysClosed(r: Router, es: seq<Event>)
    requires Stays(r, es) && NoNewRequest(es)
    requires r.phase.seg.pending.Some? ==> !r.phase.seg.pending.value.open
    ensures Run(r, es).phase.Forwarding?
    ensures Run(r, es).phase.seg.pending.Some? ==> !Run(r, es).phase.seg.pending.value.open
  {
    hide Stays, Step;
    StaysBefore(r, es);
    if es != [] {
      assert NoNewRequest(es[..|es| - 1]) by {
        assert forall e :: e in es[..|es| - 1] ==> e in es;
      }
      ClosedStaysClosed(r, es[..|es| - 1]);
      PendingStep(Run(r, es[..|es| - 1]), es[|es| - 1]);
    }
  }

  const KEYFRAME: Tag := [TAG_VIDEO, 0, 0, 2, 0, 0, 0, 0, 0, 0, 0, 0x17, 1]

  /** A request can be spliced in if and only if its source had a relay when it was made. */
  lemma CanSpliceExactly(r: Router, relay: bool)
    requires Observes(r, SourceChanged(relay)) && r.watched.Some? && r.watched.value != r.phase.seg.source
    ensures CanSplice(Step(r, SourceChanged(relay))) <==> relay
  {
    var requested := Step(r, SourceChanged(relay));
    if relay {
      var e := PendingTag(KEYFRAME, Routing(true, None), map[]);
      var none: seq<Event> := [];
      assert forall k: nat | k <= |none| :: none[..k] == none;
      assert NoNewRequest(none) && Stays(requested, none) && IsSplice(Run(requested, none), e);
    } else if CanSplice(requested) {
      var es, e :| NoNewRequest(es) && Stays(requested, es) && IsSplice(Run(requested, es), e);
      ClosedStaysClosed(requested, es);
      assert false;
    }
  }

  // ---------- between segments ----------

  /** The latest selection after some events. */
  function LastSelected(initial: Option<SourceId>, es: seq<Event>): Option<SourceId> {
    if es == [] then initial
    else if es[|es| - 1].Selected? then es[|es| - 1].source
    else LastSelected(initial, es[..|es| - 1])
  }

  lemma {:induction false} WatchHoldsLastSelected(r: Router, es: seq<Event>)
    ensures Run(r, es).watched == LastSelected(r.watched, es)
  {
    hide Remap, Injected;
    if es != [] {
      WatchHoldsLastSelected(r, es[..|es| - 1]);
    }
  }

  /** A routing change or the end of the current relay: the segment is left without a splice. */
  predicate Leaves(e: Event) { e.RoutingChanged? || e.CurrentClosed? }

  lemma LeavingEnds(r: Router, e: Event)
    requires r.phase.Forwarding? && (Leaves(e) || IsSplice(r, e))
    ensures Step(r, e).phase.Selecting?
    ensures Leaves(e) ==> Step(r, e).log == r.log && Step(r, e).outputTs == r.outputTs
  {
    hide Remap, Injected;
  }

  lemma {:induction false} SelectingWaits(r: Router, selections: seq<Event>)
    requires r.phase.Selecting? && forall i | 0 <= i < |selections| :: selections[i].Selected?
    ensures Run(r, selections).phase.Selecting? && Run(r, selections).log == r.log
    ensures Run(r, selections).outputTs == r.outputTs
  {
    if selections != [] {
      SelectingWaits(r, selections[..|selections| - 1]);
    }
  }

  /** Which source the next segment forwards: however the last one ended, it is the latest selection, if that has a
    * relay. */
  lemma NextSegmentFollowsSelection(r: Router, es: seq<Event>, end: Event, selections: seq<Event>, select: Event)
    requires Stays(r, es) && (Leaves(end) || IsSplice(Run(r, es), end)) && select.Select?
    requires forall i | 0 <= i < |selections| :: selections[i].Selected?
    ensures var latest := LastSelected(LastSelected(r.watched, es), selections);
            var next := Step(Run(Step(Run(r, es), end), selections), select);
            && (next.phase.Forwarding? <==> latest.Some? && select.videoRelay)
            && (next.phase.Forwarding? ==> next.phase.seg.source == latest.value && !next.phase.seg.gotKeyframe)
            && (next.phase.AwaitingSource? <==> latest.Some? && !select.videoRelay)
            && (next.phase.Selecting? <==> latest.None?)
  {
    hide Remap, Injected;
    StaysBefore(r, es);
    var ended := Step(Run(r, es), end);
    LeavingEnds(Run(r, es), end);
    WatchHoldsLastSelected(r, es);
    WatchHoldsLastSelected(ended, selections);
    SelectingWaits(ended, selections);
    assert ended.watched == Run(r, es).watched;
  }

  /** The source of a segment stays what it was. */
  lemma {:induction false} SourceStays(r: Router, es: seq<Event>)
    requires Stays(r, es)
    ensures r.phase.Forwarding? && Run(r, es).phase.Forwarding? && Run(r, es).phase.seg.source == r.phase.seg.source
    ensures Run(r, es).segments == r.segments
  {
    hide Stays, Step;
    StaysBefore(r, es);
    if es != [] {
      SourceStays(r, es[..|es| - 1]);
      PendingStep(Run(r, es[..|es| - 1]), es[|es| - 1]);
    }
  }

  // ---------- is the old source kept? ----------

  /** The events that leave a segment, other than a splice. */
  predicate Ends(e: Event) { Leaves(e) || e.SourceWatchClosed? || e.RoutingWatchClosed? }

  /** No pending keyframe arrives during the run. */
  ghost predicate NoSplice(r: Router, es: seq<Event>) {
    forall k | 0 <= k < |es| :: !IsSplice(Run(r, es[..k]), es[k])
  }

  /** Once the segment has been left, no keyframe arrives that would begin another. */
  predicate NoKeyframeAfterEnd(es: seq<Event>) {
    forall j, k | 0 <= j < k < |es| && Ends(es[j]) && es[k].CurrentTag? :: !IsVideoKeyframe(es[k].tag)
  }

  /** The source is shown: its next inter frame is published. */
  ghost predicate Shows(r: Router, source: SourceId, frame: Tag) {
    Published(Step(r, CurrentTag(frame)).log) == Published(r.log) + [ContentOf(frame, source)]
  }

  predicate Unkeyed(r: Router) { r.phase.Forwarding? ==> !r.phase.seg.gotKeyframe }

  predicate KeyedOn(r: Router, source: SourceId) {
    r.phase.Forwarding? && r.phase.seg.gotKeyframe && r.phase.seg.source == source
  }

  lemma KeyedShows(r: Router, source: SourceId, frame: Tag)
    requires IsInterFrame(frame)
    ensures KeyedOn(r, source) ==> Shows(r, source, frame)
    ensures Unkeyed(r) ==> Step(r, CurrentTag(frame)).log == r.log && !Shows(r, source, frame)
  {
    hide Published, Remap, ContentOf;
    if KeyedOn(r, source) {
      var seg := r.phase.seg;
      CurrentArrives(seg, r, false, !seg.audioOpen, frame);
    }
  }

  lemma KeyedStep(r: Router, source: SourceId, e: Event)
    requires KeyedOn(r, source) && !IsSplice(r, e)
    ensures if Ends(e) then Unkeyed(Step(r, e)) else KeyedOn(Step(r, e), source)
  {
    hide Remap, Injected;
  }

  lemma UnkeyedStep(r: Router, e: Event)
    requires Unkeyed(r) && !(e.CurrentTag? && IsVideoKeyframe(e.tag))
    ensures Unkeyed(Step(r, e))
  {
    hide Remap, Injected;
  }

  /** Some event has left the segment. */
  predicate HasEnded(es: seq<Event>) { exists k | 0 <= k < |es| :: Ends(es[k]) }

  lemma EndedBefore(es: seq<Event>)
    requires es != []
    ensures HasEnded(es) <==> HasEnded(es[..|es| - 1]) || Ends(es[|es| - 1])
    ensures NoKeyframeAfterEnd(es) ==> NoKeyframeAfterEnd(es[..|es| - 1])
    ensures NoKeyframeAfterEnd(es) && HasEnded(es[..|es| - 1]) ==>
              !(es[|es| - 1].CurrentTag? && IsVideoKeyframe(es[|es| - 1].tag))
  {
    hide Ends;
    var before := es[..|es| - 1];
    if HasEnded(before) {
      var k :| 0 <= k < |before| && Ends(before[k]);
      assert Ends(es[k]);
    }
    if HasEnded(es) {
      var k :| 0 <= k < |es| && Ends(es[k]);
      assert k < |before| ==> Ends(before[k]);
    }
  }

  lemma NoSpliceBefore(r: Router, es: seq<Event>)
    requires NoSplice(r, es) && es != []
    ensures NoSplice(r, es[..|es| - 1]) && !IsSplice(Run(r, es[..|es| - 1]), es[|es| - 1])
  {
    hide Run, IsSplice;
    var before := es[..|es| - 1];
    forall k | 0 <= k < |before| ensures !IsSplice(Run(r, before[..k]), before[k]) {
      assert before[..k] == es[..k];
    }
  }

  lemma {:induction false} KeyedUntilEnd(r: Router, es: seq<Event>)
    requires r.phase.Forwarding? && r.phase.seg.gotKeyframe && NoSplice(r, es) && NoKeyframeAfterEnd(es)
    ensures if HasEnded(es) then Unkeyed(Run(r, es)) else KeyedOn(Run(r, es), r.phase.seg.source)
  {
    hide Step, Unkeyed, KeyedOn, IsSplice, Ends, HasEnded, NoSplice, NoKeyframeAfterEnd;
    if es == [] {
      KeyedAtFirst(r);
    } else {
      var before, e := es[..|es| - 1], es[|es| - 1];
      EndedBefore(es);
      NoSpliceBefore(r, es);
      KeyedUntilEnd(r, before);
      if HasEnded(before) {
        UnkeyedStep(Run(r, before), e);
      } else {
        KeyedStep(Run(r, before), r.phase.seg.source, e);
      }
    }
  }

  lemma KeyedAtFirst(r: Router)
    requires r.phase.Forwarding? && r.phase.seg.gotKeyframe
    ensures KeyedOn(r, r.phase.seg.source) && !HasEnded([])
  {
  }

  /** The old source is kept until the new one has a keyframe, exactly: as long as no pending keyframe arrives, the next
    * inter frame of a source that is being shown is published if and only if no event has left its segment. After one,
    * nothing at all is published for it, whatever is selected. */
  lemma KeptExactly(r: Router, es: seq<Event>, frame: Tag)
    requires r.phase.Forwarding? && r.phase.seg.gotKeyframe && NoSplice(r, es) && NoKeyframeAfterEnd(es)
    requires IsInterFrame(frame)
    ensures Shows(Run(r, es), r.phase.seg.source, frame) <==> forall k | 0 <= k < |es| :: !Ends(es[k])
    ensures HasEnded(es) ==> Step(Run(r, es), CurrentTag(frame)).log == Run(r, es).log
  {
    hide Step, Unkeyed, KeyedOn, Shows, NoSplice, NoKeyframeAfterEnd, Ends;
    KeyedUntilEnd(r, es);
    KeyedShows(Run(r, es), r.phase.seg.source, frame);
  }

  /** What the end of a segment comes to. Three cases: the same source again, another one, or none; in each the program
    * is without frames until a keyframe comes. The old source is cut for another one, with nothing published of that
    * one, if and only if the segment is left without a splice while the other is selected and has a relay. */
  lemma CutExactly(r: Router, es: seq<Event>, end: Event, selections: seq<Event>, select: Event)
    requires Stays(r, es) && (Leaves(end) || IsSplice(Run(r, es), end)) && select.Select?
    requires forall i | 0 <= i < |selections| :: selections[i].Selected?
    ensures var latest := LastSelected(LastSelected(r.watched, es), selections);
            var ended := Step(Run(r, es), end);
            var next := Step(Run(ended, selections), select);
            && (next.phase.Forwarding? && next.phase.seg.source == r.phase.seg.source
                <==> select.videoRelay && latest == Some(r.phase.seg.source))
            && (next.phase.Forwarding? && next.phase.seg.source != r.phase.seg.source && ended.log == Run(r, es).log
                <==> Leaves(end) && select.videoRelay && latest.Some? && latest.value != r.phase.seg.source)
            && (next.phase.AwaitingSource? <==> latest.Some? && !select.videoRelay)
            && (next.phase.Selecting? <==> latest.None?)
            && Unkeyed(next)
  {
    hide Step, Injected, LastSelected;
    NextSegmentFollowsSelection(r, es, end, selections, select);
    SourceStays(r, es);
    LeavingEnds(Run(r, es), end);
    if !Leaves(end) {
      SplicePublishes(Run(r, es), end);
    }
  }

  /** Without a relay for the selection, or without a selection, only a further selection helps: the relay may appear
    * and everything else may happen, and nothing is published. */
  lemma {:induction false} OnlySelectionHelps(r: Router, es: seq<Event>)
    requires r.phase.AwaitingSource? || (r.phase.Selecting? && r.watched.None?)
    requires !r.unseen && forall i | 0 <= i < |es| :: !es[i].Selected? && !es[i].SourceWatchClosed?
    ensures Run(r, es) == r
  {
    if es != [] {
      OnlySelectionHelps(r, es[..|es| - 1]);
    }
  }

  /** And a further selection does: the router selects anew, and forwards the selected source if and only if it has a
    * relay by then. */
  lemma SelectionHelps(r: Router, id: SourceId, relay: bool, select: Event)
    requires r.phase.AwaitingSource? && select.Select?
    ensures var next := Step(Step(Step(r, Selected(Some(id))), SourceChanged(relay)), select);
            next.phase.Forwarding? <==> select.videoRelay
    ensures select.videoRelay ==>
              Step(Step(Step(r, Selected(Some(id))), SourceChanged(relay)), select).phase.seg.source == id
  {
    hide Injected;
  }

  /** A splice hands over to the spliced source if and only if that is still the latest selection and has a relay;
    * otherwise its keyframe stands alone in the program. */
  lemma HandsOverExactly(r: Router, es: seq<Event>, end: Event, selections: seq<Event>, select: Event)
    requires Stays(r, es) && IsSplice(Run(r, es), end) && select.Select?
    requires forall i | 0 <= i < |selections| :: selections[i].Selected?
    ensures var spliced := Run(r, es).phase.seg.pending.value.source;
            var next := Step(Run(Step(Run(r, es), end), selections), select);
            next.phase.Forwarding? && next.phase.seg.source == spliced
            <==> select.videoRelay && LastSelected(LastSelected(r.watched, es), selections) == Some(spliced)
  {
    hide Step, LastSelected;
    NextSegmentFollowsSelection(r, es, end, selections, select);
  }

  /** Until its keyframe a new segment publishes no frame at all, so a cut leaves the program without video
    * meanwhile. */
  lemma {:induction false} SilentUntilKeyframe(r: Router, es: seq<Event>)
    requires Stays(r, es) && !r.phase.seg.gotKeyframe && !Keyed(es)
    ensures Run(r, es).phase.Forwarding? && !Run(r, es).phase.seg.gotKeyframe
    ensures r.log <= Run(r, es).log
    ensures forall i | |r.log| <= i < |Run(r, es).log| :: !IsFrame(Run(r, es).log[i].tag)
  {
    hide Stays, Step, Keyed;
    StaysBefore(r, es);
    if es != [] {
      var before, e := es[..|es| - 1], es[|es| - 1];
      assert es == before + [e];
      OneMoreEvent(before, e);
      SilentUntilKeyframe(r, before);
      SilentStep(Run(r, before), e);
    }
  }

  lemma SilentStep(r: Router, e: Event)
    requires r.phase.Forwarding? && !r.phase.seg.gotKeyframe && !(e.CurrentTag? && IsVideoKeyframe(e.tag))
    requires Step(r, e).phase.Forwarding?
    ensures !Step(r, e).phase.seg.gotKeyframe && r.log <= Step(r, e).log
    ensures forall i | |r.log| <= i < |Step(r, e).log| :: !IsFrame(Step(r, e).log[i].tag)
  {
    hide Remap, Injected;
    var seg := r.phase.seg;
    if e.CurrentTag? {
      RemapKeepsClass(e.tag, seg.firstVideoTs, seg.baseOutputTs, r.outputTs);
    } else if e.AudioTag? {
      RemapKeepsClass(e.tag, seg.firstAudioTs, seg.baseOutputTs, r.outputTs);
    }
  }
}
