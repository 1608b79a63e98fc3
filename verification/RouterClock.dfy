/** One continuous clock: the 32-bit output timestamps are the low bits of an integer clock, across wraps of a source's
  * own timestamps, injected headers, splices and reconnections; and exactly when that clock never runs backwards. */
module RouterClock {
  import opened Wrappers
  import opened Flv
  import opened TagReader
  import opened ProgramRouter

  /** An event together with the true, unwrapped source time of its tag (ignored for other events). */
  datatype Timed = Timed(event: Event, time: nat)

  /** The source times of a subscription: that of the first tag published from it, and that of the last tag seen on
    * it. */
  datatype Times = Times(first: Option<nat>, last: Option<nat>)

  /** The integer clock beside the router: its value, the value at which the segment began, the source times of its
    * video relay and of a separate audio relay, and the value at which each log entry was published. */
  datatype Clock = Clock(now: nat, base: nat, video: Times, audio: Times, stamps: seq<nat>)

  const NO_TIMES := Times(None, None)
  const CLOCK_START := Clock(0, 0, NO_TIMES, NO_TIMES, [])

  predicate HasTimestamp(tag: Tag) { |tag| >= 8 }

  /** The log only grows. */
  lemma LogGrows(r: Router, e: Event)
    ensures r.log <= Step(r, e).log
  {
    hide Remap;
  }

  /** How many tags the router publishes for an event. */
  function PublishedBy(r: Router, e: Event): nat {
    LogGrows(r, e);
    |Step(r, e).log| - |r.log|
  }

  function Stamp(c: Clock, n: nat): Clock { c.(stamps := c.stamps + seq(n, _ => c.now)) }

  function Seen(x: Times, time: nat, published: bool): Times {
    Times(if published then Some(x.first.GetOr(time)) else x.first, Some(time))
  }

  /** Where a tag lands that is published from a subscription. A source time before the first, which Steadily excludes,
    * leaves the clock where it is. */
  function Landing(c: Clock, x: Times, time: nat): nat {
    var first := x.first.GetOr(time);
    if time >= first then c.base + (time - first) else c.now
  }

  function ClockStep(r: Router, c: Clock, te: Timed): Clock {
    var added := PublishedBy(r, te.event);
    if r.phase.Selecting? && Step(r, te.event).phase.Forwarding? then
      Stamp(c.(base := c.now, video := NO_TIMES, audio := NO_TIMES), added)
    else if r.phase.Forwarding? && te.event.CurrentTag? && HasTimestamp(te.event.tag) then
      var now := if added == 0 then c.now else Landing(c, c.video, te.time);
      Stamp(c.(now := now, video := Seen(c.video, te.time, added > 0)), added)
    else if r.phase.Forwarding? && te.event.AudioTag? && HasTimestamp(te.event.tag) && r.phase.seg.audioOpen then
      var now := if added == 0 then c.now else Landing(c, c.audio, te.time);
      Stamp(c.(now := now, audio := Seen(c.audio, te.time, added > 0)), added)
    else Stamp(c, added)
  }

  function RunFrom(r: Router, c: Clock, tes: seq<Timed>): (Router, Clock) {
    if tes == [] then (r, c)
    else
      var (r', c') := RunFrom(r, c, tes[..|tes| - 1]);
      var te := tes[|tes| - 1];
      (Step(r', te.event), ClockStep(r', c', te))
  }

  function RunBoth(tes: seq<Timed>): (Router, Clock) { RunFrom(START, CLOCK_START, tes) }

  // ---------- what is asked of the environment ----------

  /** The time is the one the tag carries, and on its subscription it is not before the last. */
  predicate TimeOk(tag: Tag, time: nat, x: Times) {
    HasTimestamp(tag) ==> ReadTimestamp(tag) == Some(time % WRAP) && (x.last.Some? ==> x.last.value <= time)
  }

  /** On each subscription source times never decrease. */
  predicate Steadily(r: Router, c: Clock, te: Timed) {
    match te.event
    case CurrentTag(tag) => TimeOk(tag, te.time, if r.phase.Forwarding? then c.video else NO_TIMES)
    case AudioTag(tag) => TimeOk(tag, te.time, if r.phase.Forwarding? then c.audio else NO_TIMES)
    case _ => true
  }

  ghost predicate SteadyFrom(r: Router, c: Clock, tes: seq<Timed>) {
    tes != [] ==>
      var before := tes[..|tes| - 1];
      SteadyFrom(r, c, before) && Steadily(RunFrom(r, c, before).0, RunFrom(r, c, before).1, tes[|tes| - 1])
  }

  ghost predicate Steady(tes: seq<Timed>) { SteadyFrom(START, CLOCK_START, tes) }

  /** A selection that subscribes to a separate audio relay. */
  predicate SeparatesAudio(r: Router, e: Event) {
    && r.phase.Selecting? && e.Select? && r.watched.Some? && e.videoRelay && e.audioRelay
    && AudioSource(e.routing, r.watched.value) != r.watched.value
  }

  ghost predicate NeverSeparate(tes: seq<Timed>) {
    tes != [] ==>
      NeverSeparate(tes[..|tes| - 1]) && !SeparatesAudio(RunBoth(tes[..|tes| - 1]).0, tes[|tes| - 1].event)
  }

  // ---------- the invariants ----------

  ghost predicate NonDecreasing(s: seq<nat>) {
    forall i, j | 0 <= i < j < |s| :: s[i] <= s[j]
  }

  /** Every published timestamp is the low bits of the clock at its publication. */
  ghost predicate Stamped(log: seq<LogEntry>, stamps: seq<nat>) {
    && |stamps| == |log|
    && forall i | 0 <= i < |log| && HasTimestamp(log[i].tag) :: ReadTimestamp(log[i].tag) == Some(stamps[i] % WRAP)
  }

  predicate TimesOk(firstTs: Option<U32>, x: Times) {
    && (firstTs.Some? <==> x.first.Some?)
    && (x.first.Some? ==> firstTs == Some(x.first.value % WRAP) && x.last.Some? && x.first.value <= x.last.value)
  }

  ghost predicate Inv(r: Router, c: Clock) {
    && r.outputTs == c.now % WRAP && Stamped(r.log, c.stamps)
    && (r.phase.Forwarding? ==>
          var seg := r.phase.seg;
          seg.baseOutputTs == c.base % WRAP && TimesOk(seg.firstVideoTs, c.video) && TimesOk(seg.firstAudioTs, c.audio))
  }

  /** The clock has not run back. */
  ghost predicate Ordered(c: Clock) {
    NonDecreasing(c.stamps) && forall i | 0 <= i < |c.stamps| :: c.stamps[i] <= c.now
  }

  /** Only the video relay moves the clock, which stands no further than that relay has taken it. */
  predicate VideoOnly(r: Router, c: Clock) { r.phase.Forwarding? ==> !r.phase.seg.audioOpen && VideoAhead(c) }

  predicate VideoAhead(c: Clock) {
    && (c.video.first.None? ==> c.now == c.base)
    && (c.video.first.Some? && c.video.last.Some? && c.video.first.value <= c.video.last.value ==>
          c.now <= c.base + (c.video.last.value - c.video.first.value))
  }

  /** Wrapping arithmetic on the low bits is the low bits of integer arithmetic. */
  lemma WrappingIsModular(base: nat, first: nat, time: nat)
    requires first <= time
    ensures OnClock(time % WRAP, first % WRAP, base % WRAP) == (base + (time - first)) % WRAP
  {
    ModSub(time, first);
    ModAdd(base, time - first);
  }

  lemma ModSub(a: nat, b: nat)
    requires b <= a
    ensures (a % WRAP - b % WRAP) % WRAP == (a - b) % WRAP
  {
    assert a % WRAP - b % WRAP == (a - b) - WRAP * (a / WRAP - b / WRAP);
    ModMultiple(a - b, b / WRAP - a / WRAP);
  }

  lemma ModAdd(a: nat, b: nat)
    ensures (a % WRAP + b % WRAP) % WRAP == (a + b) % WRAP
  {
    assert a % WRAP + b % WRAP == (a + b) - WRAP * (a / WRAP + b / WRAP);
    ModMultiple(a + b, -(a / WRAP + b / WRAP));
  }

  lemma ModMultiple(n: int, k: int)
    ensures (n + WRAP * k) % WRAP == n % WRAP
  {
    var q, m := n / WRAP, n % WRAP;
    assert n + WRAP * k == WRAP * (q + k) + m;
  }

  lemma AddStamps(log: seq<LogEntry>, c: Clock, more: seq<LogEntry>)
    requires Stamped(log, c.stamps)
    requires forall i | 0 <= i < |more| && HasTimestamp(more[i].tag) :: ReadTimestamp(more[i].tag) == Some(c.now % WRAP)
    ensures Stamped(log + more, Stamp(c, |more|).stamps)
  {
    hide ReadTimestamp, HasTimestamp;
    var d := Stamp(c, |more|);
    forall i | 0 <= i < |log + more| && HasTimestamp((log + more)[i].tag)
      ensures ReadTimestamp((log + more)[i].tag) == Some(d.stamps[i] % WRAP)
    {
      if i >= |log| {
        assert (log + more)[i] == more[i - |log|];
      }
    }
  }

  lemma InjectedAtNow(headers: Headers, video: SourceId, audio: SourceId, ts: U32, segment: nat)
    ensures var more := Injected(headers, video, audio, ts, segment);
            forall i | 0 <= i < |more| && HasTimestamp(more[i].tag) :: ReadTimestamp(more[i].tag) == Some(ts)
  {
    hide Rewritten, ReadTimestamp;
    var v, a := VideoHeaderOf(headers, video), AudioHeaderOf(headers, AudioHeaderSource(headers, video, audio));
    if v.Some? {
      RewriteSetsTimestampOnly(v.value, ts, ts);
    }
    if a.Some? {
      RewriteSetsTimestampOnly(a.value, ts, ts);
    }
  }

  // ---------- one step ----------

  lemma SelectKeepsInv(r: Router, c: Clock, te: Timed)
    requires Inv(r, c) && r.phase.Selecting? && te.event.Select? && r.watched.Some?
    ensures Inv(Step(r, te.event), ClockStep(r, c, te))
  {
    hide ReadTimestamp, Injected;
    var e, id := te.event, r.watched.value;
    var more := Injected(e.headers, id, AudioSource(e.routing, id), r.outputTs, r.segments + 1);
    InjectedAtNow(e.headers, id, AudioSource(e.routing, id), r.outputTs, r.segments + 1);
    assert Step(r, e).log == r.log + more;
    AddStamps(r.log, if e.videoRelay then c.(base := c.now, video := NO_TIMES, audio := NO_TIMES) else c, more);
  }

  lemma SpliceKeepsInv(r: Router, c: Clock, te: Timed)
    requires Inv(r, c) && r.phase.Forwarding? && te.event.PendingTag? && Splices(r.phase.seg, te.event.tag)
    ensures Inv(Step(r, te.event), ClockStep(r, c, te))
  {
    hide ReadTimestamp, Injected, Rewritten;
    var tag, headers := te.event.tag, te.event.newHeaders;
    var source := r.phase.seg.pending.value.source;
    var audio := AudioSource(te.event.newRouting, source);
    var more := Injected(headers, source, audio, r.outputTs, r.segments);
    InjectedAtNow(headers, source, audio, r.outputTs, r.segments);
    var ts := ReadTimestamp(tag).value;
    assert OnClock(ts, ts, r.outputTs) == r.outputTs;
    RewriteSetsTimestampOnly(tag, r.outputTs, r.outputTs);
    var key := LogEntry(Rewritten(tag, r.outputTs), source, r.segments, VideoHeaderOf(headers, source).Some?);
    AddStamps(r.log, c, more + [key]);
    assert Step(r, te.event).log == r.log + (more + [key]);
  }

  /** A tag published from a subscription lands where the clock does. */
  lemma PublishedLands(c: Clock, x: Times, firstTs: Option<U32>, base: U32, outputTs: U32, tag: Tag, time: nat)
    requires base == c.base % WRAP && TimesOk(firstTs, x) && TimeOk(tag, time, x) && HasTimestamp(tag)
    ensures var m := Remap(tag, firstTs, base, outputTs);
            && m.outputTs == Landing(c, x, time) % WRAP
            && TimesOk(m.first, Seen(x, time, true)) && TimesOk(firstTs, Seen(x, time, false))
            && ReadTimestamp(m.tag) == Some(Landing(c, x, time) % WRAP)
  {
    hide Rewritten, OnClock, ReadTimestamp;
    var first, m := x.first.GetOr(time), Remap(tag, firstTs, base, outputTs);
    LandsModularly(c, x, time);
    FirstIsKept(firstTs, x, time);
    RewriteSetsTimestampOnly(tag, m.outputTs, m.outputTs);
    assert m.outputTs == OnClock(time % WRAP, firstTs.GetOr(time % WRAP), base);
  }

  lemma LandsModularly(c: Clock, x: Times, time: nat)
    requires x.first.GetOr(time) <= time
    ensures Landing(c, x, time) % WRAP == OnClock(time % WRAP, x.first.GetOr(time) % WRAP, c.base % WRAP)
  {
    WrappingIsModular(c.base, x.first.GetOr(time), time);
  }

  lemma FirstIsKept(firstTs: Option<U32>, x: Times, time: nat)
    requires TimesOk(firstTs, x) && (x.last.Some? ==> x.last.value <= time)
    ensures firstTs.GetOr(time % WRAP) == x.first.GetOr(time) % WRAP && x.first.GetOr(time) <= time
    ensures TimesOk(Some(firstTs.GetOr(time % WRAP)), Seen(x, time, true)) && TimesOk(firstTs, Seen(x, time, false))
  {
  }

  /** A tag without a timestamp is published as it is. */
  lemma PlainTagPasses(log: seq<LogEntry>, c: Clock, entry: LogEntry)
    requires Stamped(log, c.stamps) && !HasTimestamp(entry.tag)
    ensures Stamped(log + [entry], Stamp(c, 1).stamps)
  {
    AddStamps(log, c, [entry]);
  }

  lemma CurrentKeepsInv(r: Router, c: Clock, te: Timed)
    requires Inv(r, c) && Steadily(r, c, te) && r.phase.Forwarding? && te.event.CurrentTag?
    ensures Inv(Step(r, te.event), ClockStep(r, c, te))
  {
    hide ReadTimestamp, Remap, Landing, TimesOk, Stamped;
    var seg, tag := r.phase.seg, te.event.tag;
    var m := Remap(tag, seg.firstVideoTs, seg.baseOutputTs, r.outputTs);
    var entry := LogEntry(m.tag, seg.source, r.segments, seg.headerCached);
    AddStamps(r.log, c, []);
    assert r.log + [] == r.log;
    if HasTimestamp(tag) {
      PublishedLands(c, c.video, seg.firstVideoTs, seg.baseOutputTs, r.outputTs, tag, te.time);
      AddStamps(r.log, c.(now := Landing(c, c.video, te.time), video := Seen(c.video, te.time, true)), [entry]);
    } else {
      RemapPlain(tag, seg.firstVideoTs, seg.baseOutputTs, r.outputTs);
      PlainTagPasses(r.log, c, entry);
    }
  }

  lemma RemapPlain(tag: Tag, first: Option<U32>, base: U32, outputTs: U32)
    requires !HasTimestamp(tag)
    ensures Remap(tag, first, base, outputTs) == Remapped(tag, first, outputTs)
  {
  }

  lemma AudioKeepsInv(r: Router, c: Clock, te: Timed)
    requires Inv(r, c) && Steadily(r, c, te) && r.phase.Forwarding? && te.event.AudioTag?
    ensures Inv(Step(r, te.event), ClockStep(r, c, te))
  {
    hide ReadTimestamp, Remap, Landing, TimesOk, Stamped;
    var seg, tag := r.phase.seg, te.event.tag;
    var m := Remap(tag, seg.firstAudioTs, seg.baseOutputTs, r.outputTs);
    var entry := LogEntry(m.tag, seg.audioSource, r.segments, seg.headerCached);
    AddStamps(r.log, c, []);
    assert r.log + [] == r.log;
    if HasTimestamp(tag) {
      PublishedLands(c, c.audio, seg.firstAudioTs, seg.baseOutputTs, r.outputTs, tag, te.time);
      AddStamps(r.log, c.(now := Landing(c, c.audio, te.time), audio := Seen(c.audio, te.time, true)), [entry]);
    } else {
      RemapPlain(tag, seg.firstAudioTs, seg.baseOutputTs, r.outputTs);
      PlainTagPasses(r.log, c, entry);
    }
  }

  /** An event that publishes nothing and starts nothing leaves the clock alone. */
  predicate Quiet(r: Router, e: Event) {
    && !(r.phase.Selecting? && e.Select? && r.watched.Some?)
    && (r.phase.Forwarding? ==> !e.CurrentTag? && !e.AudioTag? && !(e.PendingTag? && Splices(r.phase.seg, e.tag)))
  }

  lemma QuietChangesNothing(r: Router, c: Clock, te: Timed)
    requires Quiet(r, te.event)
    ensures ClockStep(r, c, te) == c && Step(r, te.event).log == r.log && Step(r, te.event).outputTs == r.outputTs
    ensures Step(r, te.event).phase.Forwarding? ==>
              && r.phase.Forwarding? && Step(r, te.event).phase.seg.baseOutputTs == r.phase.seg.baseOutputTs
              && Step(r, te.event).phase.seg.firstVideoTs == r.phase.seg.firstVideoTs
              && Step(r, te.event).phase.seg.firstAudioTs == r.phase.seg.firstAudioTs
              && (Step(r, te.event).phase.seg.audioOpen ==> r.phase.seg.audioOpen)
  {
    hide Remap, Injected;
    assert c.stamps + [] == c.stamps;
  }

  lemma StepKeepsInv(r: Router, c: Clock, te: Timed)
    requires Inv(r, c) && Steadily(r, c, te)
    ensures Inv(Step(r, te.event), ClockStep(r, c, te))
  {
    hide Step, ClockStep, Stamped, TimesOk;
    if Quiet(r, te.event) {
      QuietChangesNothing(r, c, te);
    } else if r.phase.Selecting? {
      SelectKeepsInv(r, c, te);
    } else if te.event.CurrentTag? {
      CurrentKeepsInv(r, c, te);
    } else if te.event.AudioTag? {
      AudioKeepsInv(r, c, te);
    } else {
      SpliceKeepsInv(r, c, te);
    }
  }

  lemma {:induction false} RunKeepsInv(r: Router, c: Clock, tes: seq<Timed>)
    requires Inv(r, c) && SteadyFrom(r, c, tes)
    ensures Inv(RunFrom(r, c, tes).0, RunFrom(r, c, tes).1)
  {
    hide Inv, Step, ClockStep, Steadily;
    if tes != [] {
      var before := tes[..|tes| - 1];
      RunKeepsInv(r, c, before);
      StepKeepsInv(RunFrom(r, c, before).0, RunFrom(r, c, before).1, tes[|tes| - 1]);
    }
  }

  // ---------- whole runs ----------

  /** On every run on which each subscription's source times never decrease, separate audio or not, the output timestamp
    * is the integer clock modulo 2^32, and so is the timestamp of every published tag at the moment of its
    * publication. */
  lemma OutputIsTheClock(tes: seq<Timed>)
    requires Steady(tes)
    ensures var (r, c) := RunBoth(tes); r.outputTs == c.now % WRAP && Stamped(r.log, c.stamps)
  {
    hide Stamped;
    StartsWell();
    RunKeepsInv(START, CLOCK_START, tes);
  }

  lemma StartsWell()
    ensures Inv(START, CLOCK_START) && VideoOnly(START, CLOCK_START) && Ordered(CLOCK_START)
  {
  }

  /** Without separate audio no step turns the clock back. */
  lemma StepKeepsOrder(r: Router, c: Clock, te: Timed)
    requires Inv(r, c) && VideoOnly(r, c) && Steadily(r, c, te) && !SeparatesAudio(r, te.event)
    ensures VideoOnly(Step(r, te.event), ClockStep(r, c, te)) && c.now <= ClockStep(r, c, te).now
    ensures Ordered(c) ==> Ordered(ClockStep(r, c, te))
  {
    hide Remap, Injected, ReadTimestamp, Stamped;
    if Quiet(r, te.event) {
      QuietChangesNothing(r, c, te);
    }
  }

  /** One continuous clock: on every steady run on which no selection subscribes to a separate audio relay, it moreover
    * never runs back from one published tag to the next. */
  lemma {:induction false} OneContinuousClock(tes: seq<Timed>)
    requires Steady(tes) && NeverSeparate(tes)
    ensures var (r, c) := RunBoth(tes);
            && r.outputTs == c.now % WRAP && Stamped(r.log, c.stamps) && NonDecreasing(c.stamps)
            && Inv(r, c) && VideoOnly(r, c) && Ordered(c)
  {
    hide Stamped, Step, ClockStep, Steadily, SeparatesAudio, VideoOnly;
    StartsWell();
    if tes != [] {
      var before := tes[..|tes| - 1];
      OneContinuousClock(before);
      StepKeepsInv(RunBoth(before).0, RunBoth(before).1, tes[|tes| - 1]);
      StepKeepsOrder(RunBoth(before).0, RunBoth(before).1, tes[|tes| - 1]);
    }
  }

  /** Nor between any two moments of the run. */
  lemma {:induction false} ClockNeverRunsBack(tes: seq<Timed>, k: nat)
    requires Steady(tes) && NeverSeparate(tes) && k <= |tes|
    ensures RunBoth(tes[..k]).1.now <= RunBoth(tes).1.now
  {
    hide Stamped, Step, ClockStep, Steadily, SeparatesAudio, VideoOnly;
    if k == |tes| {
      assert tes[..k] == tes;
    } else {
      var before := tes[..|tes| - 1];
      ClockNeverRunsBack(before, k);
      assert before[..k] == tes[..k];
      OneContinuousClock(before);
      StepKeepsOrder(RunBoth(before).0, RunBoth(before).1, tes[|tes| - 1]);
    }
  }

  /** The router of the timed run is the router itself. */
  lemma {:induction false} TimedRunIsRun(tes: seq<Timed>)
    ensures RunBoth(tes).0 == Run(START, Events(tes))
  {
    if tes != [] {
      TimedRunIsRun(tes[..|tes| - 1]);
      assert Events(tes)[..|tes| - 1] == Events(tes[..|tes| - 1]);
    }
  }

  function Events(tes: seq<Timed>): (es: seq<Event>)
    ensures |es| == |tes|
  {
    seq(|tes|, i requires 0 <= i < |tes| => tes[i].event)
  }

  // ---------- separate audio ----------

  /** The first tag of a separate audio relay puts the output timestamp back to where the segment began. */
  lemma SeparateAudioRestartsClock(r: Router, tag: Tag)
    requires r.phase.Forwarding? && r.phase.seg.audioOpen && r.phase.seg.firstAudioTs.None?
    requires IsAudio(tag) && HasTimestamp(tag)
    ensures Step(r, AudioTag(tag)).outputTs == r.phase.seg.baseOutputTs
  {
    hide ReadTimestamp, Rewritten;
    var ts := ReadTimestamp(tag).value;
    assert OnClock(ts, ts, r.phase.seg.baseOutputTs) == r.phase.seg.baseOutputTs;
  }

  /** A steady continuation within the segment on which the clock runs back. */
  ghost predicate CanRunBack(r: Router, c: Clock) {
    exists tes :: SteadyFrom(r, c, tes) && StaysForwarding(r, c, tes) && RunsBack(r, c, tes)
  }

  ghost predicate StaysForwarding(r: Router, c: Clock, tes: seq<Timed>) {
    forall k | 0 <= k <= |tes| :: RunFrom(r, c, tes[..k]).0.phase.Forwarding?
  }

  ghost predicate RunsBack(r: Router, c: Clock, tes: seq<Timed>) {
    exists j, k | 0 <= j < k <= |tes| :: RunFrom(r, c, tes[..k]).1.now < RunFrom(r, c, tes[..j]).1.now
  }

  /** The clock can run back in the segment that a selection begins if and only if the selection subscribes to a
    * separate audio relay: there is a relay for the source, and one for an audio source that is another. */
  lemma RunsBackExactly(r: Router, c: Clock, te: Timed)
    requires Inv(r, c) && r.phase.Selecting? && te.event.Select?
    ensures CanRunBack(Step(r, te.event), ClockStep(r, c, te)) <==> SeparatesAudio(r, te.event)
  {
    hide Step, ClockStep, Inv;
    var r1, c1 := Step(r, te.event), ClockStep(r, c, te);
    if SeparatesAudio(r, te.event) {
      SeparateAudioRunsBack(r, c, te);
    } else if CanRunBack(r1, c1) {
      var tes :| SteadyFrom(r1, c1, tes) && StaysForwarding(r1, c1, tes) && RunsBack(r1, c1, tes);
      var j, k :| 0 <= j < k <= |tes| && RunFrom(r1, c1, tes[..k]).1.now < RunFrom(r1, c1, tes[..j]).1.now;
      SelectStartsVideoOnly(r, c, te);
      SegmentKeepsOrder(r1, c1, tes, j, k);
      assert false;
    }
  }

  lemma SelectStartsVideoOnly(r: Router, c: Clock, te: Timed)
    requires Inv(r, c) && r.phase.Selecting? && te.event.Select? && !SeparatesAudio(r, te.event)
    ensures Inv(Step(r, te.event), ClockStep(r, c, te)) && VideoOnly(Step(r, te.event), ClockStep(r, c, te))
  {
    hide Stamped;
    StepKeepsInv(r, c, te);
  }

  lemma {:induction false} SegmentKeepsOrder(r: Router, c: Clock, tes: seq<Timed>, j: nat, k: nat)
    requires Inv(r, c) && VideoOnly(r, c) && SteadyFrom(r, c, tes) && StaysForwarding(r, c, tes) && j <= k <= |tes|
    ensures Inv(RunFrom(r, c, tes[..k]).0, RunFrom(r, c, tes[..k]).1)
    ensures VideoOnly(RunFrom(r, c, tes[..k]).0, RunFrom(r, c, tes[..k]).1)
    ensures RunFrom(r, c, tes[..j]).1.now <= RunFrom(r, c, tes[..k]).1.now
  {
    hide Inv, Step, ClockStep, Steadily, VideoOnly;
    if k > 0 {
      SegmentKeepsOrder(r, c, tes, if j < k then j else k - 1, k - 1);
      assert tes[..k][..k - 1] == tes[..k - 1];
      SteadyPrefix(r, c, tes, k);
      var (r', c') := RunFrom(r, c, tes[..k - 1]);
      assert r'.phase.Forwarding?;
      StepKeepsInv(r', c', tes[k - 1]);
      StepKeepsOrder(r', c', tes[k - 1]);
    }
  }

  lemma {:induction false} SteadyPrefix(r: Router, c: Clock, tes: seq<Timed>, k: nat)
    requires SteadyFrom(r, c, tes) && 0 < k <= |tes|
    ensures Steadily(RunFrom(r, c, tes[..k - 1]).0, RunFrom(r, c, tes[..k - 1]).1, tes[k - 1])
  {
    if k < |tes| {
      SteadyPrefix(r, c, tes[..|tes| - 1], k);
      assert tes[..|tes| - 1][..k - 1] == tes[..k - 1];
    }
  }

  /** A keyframe at source time t, for t under 256, and an audio frame at source time 0. */
  function KeyframeAt(t: Byte): Tag { [TAG_VIDEO, 0, 0, 2, 0, 0, t, 0, 0, 0, 0, 0x17, 1] }
  const SOUND: Tag := [TAG_AUDIO, 0, 0, 2, 0, 0, 0, 0, 0, 0, 0, 0xAF, 1]

  lemma TagFacts(t: Byte)
    ensures IsVideoKeyframe(KeyframeAt(t)) && IsVideo(KeyframeAt(t)) && HasTimestamp(KeyframeAt(t))
    ensures ReadTimestamp(KeyframeAt(t)) == Some(t as nat % WRAP)
    ensures IsAudio(SOUND) && HasTimestamp(SOUND) && ReadTimestamp(SOUND) == Some(0 % WRAP)
  {
  }

  lemma KeyframePublishes(r: Router, c: Clock, t: Byte)
    requires r.phase.Forwarding? && (c.video.last.Some? ==> c.video.last.value <= t as nat)
    ensures var te := Timed(CurrentTag(KeyframeAt(t)), t as nat);
            var (r', c') := (Step(r, te.event), ClockStep(r, c, te));
            && Steadily(r, c, te) && r'.phase.Forwarding? && r'.phase.seg.audioOpen == r.phase.seg.audioOpen
            && c' == Stamp(c.(now := Landing(c, c.video, t as nat), video := Seen(c.video, t as nat, true)), 1)
  {
    hide Remap, KeyframeAt, IsVideoKeyframe, ReadTimestamp, HasTimestamp, Landing, Stamp, IsSequenceHeader, IsAudio;
    TagFacts(t);
  }

  lemma SoundPublishes(r: Router, c: Clock)
    requires r.phase.Forwarding? && r.phase.seg.audioOpen && c.audio == NO_TIMES
    ensures var te := Timed(AudioTag(SOUND), 0);
            && Steadily(r, c, te) && Step(r, te.event).phase.Forwarding? && ClockStep(r, c, te).now == c.base
  {
    hide Remap, ReadTimestamp, HasTimestamp, SOUND, IsAudio;
    TagFacts(0);
  }

  /** A keyframe, one 100 ms later, and then the first audio tag, which puts the clock back to where the segment
    * began. */
  lemma SeparateAudioRunsBack(r: Router, c: Clock, te: Timed)
    requires r.phase.Selecting? && SeparatesAudio(r, te.event)
    ensures CanRunBack(Step(r, te.event), ClockStep(r, c, te))
  {
    hide Inv, Steadily, Landing;
    var r0, c0 := Step(r, te.event), ClockStep(r, c, te);
    assert r0.phase.Forwarding? && r0.phase.seg.audioOpen && c0.video == c0.audio == NO_TIMES && c0.now == c0.base by {
      hide Injected;
    }
    var e1, e2 := Timed(CurrentTag(KeyframeAt(0)), 0), Timed(CurrentTag(KeyframeAt(100)), 100);
    ThreeTagsRunBack(r0, c0, e1, e2, Timed(AudioTag(SOUND), 0));
  }

  lemma ThreeTagsRunBack(r: Router, c: Clock, e1: Timed, e2: Timed, e3: Timed)
    requires r.phase.Forwarding? && r.phase.seg.audioOpen && c.video == c.audio == NO_TIMES && c.now == c.base
    requires e1 == Timed(CurrentTag(KeyframeAt(0)), 0) && e2 == Timed(CurrentTag(KeyframeAt(100)), 100)
    requires e3 == Timed(AudioTag(SOUND), 0)
    ensures CanRunBack(r, c)
  {
    hide Step, ClockStep, Steadily;
    var r1, c1 := Step(r, e1.event), ClockStep(r, c, e1);
    KeyframePublishes(r, c, 0);
    var r2, c2 := Step(r1, e2.event), ClockStep(r1, c1, e2);
    KeyframePublishes(r1, c1, 100);
    SoundPublishes(r2, c2);
    var tes := [e1, e2, e3];
    assert tes[..0] == [] && tes[..1] == [e1] && tes[..2] == [e1, e2] && tes[..3] == tes;
    assert [e1][..0] == [] && [e1, e2][..1] == [e1];
    assert RunFrom(r, c, []) == (r, c) && RunFrom(r, c, [e1]) == (r1, c1) && RunFrom(r, c, [e1, e2]) == (r2, c2);
    assert SteadyFrom(r, c, []) && SteadyFrom(r, c, [e1]) && SteadyFrom(r, c, [e1, e2]) && SteadyFrom(r, c, tes);
    assert RunFrom(r, c, tes[..3]).1.now < RunFrom(r, c, tes[..2]).1.now;
    assert StaysForwarding(r, c, tes) && RunsBack(r, c, tes);
  }
}
