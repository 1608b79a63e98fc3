/** How fast failover and recovery are. A monitoring run is a list of timestamped events; the reference notions below
  * (last tick, last video frame) are read off that list alone, not off the monitor. */
module FailoverTiming {
  import opened Wrappers
  import opened Flv
  import opened TagReader
  import opened Failover

  function MRun(m: Monitor, tes: seq<Timed>): Monitor {
    if tes == [] then m else MonitorStep(MRun(m, tes[..|tes| - 1]), tes[|tes| - 1])
  }

  // ---------- reference notions ----------

  predicate IsVideoFrame(te: Timed) { te.event.Received? && IsVideo(te.event.tag) }

  function LastTick(start: Time, tes: seq<Timed>): Time {
    if tes == [] then start
    else if tes[|tes| - 1].event.Tick? then tes[|tes| - 1].at
    else LastTick(start, tes[..|tes| - 1])
  }

  function LastVideo(start: Time, tes: seq<Timed>): Time {
    if tes == [] then start
    else if IsVideoFrame(tes[|tes| - 1]) then tes[|tes| - 1].at
    else LastVideo(start, tes[..|tes| - 1])
  }

  predicate AnyVideo(tes: seq<Timed>) {
    exists te | te in tes :: IsVideoFrame(te)
  }

  function Latest(start: Time, tes: seq<Timed>): Time {
    if tes == [] then start else tes[|tes| - 1].at
  }

  /** The times of the video frames, in order. */
  function VideoTimes(tes: seq<Timed>): seq<Time> {
    if tes == [] then []
    else VideoTimes(tes[..|tes| - 1]) + (if IsVideoFrame(tes[|tes| - 1]) then [tes[|tes| - 1].at] else [])
  }

  predicate GapsAtMost(times: seq<Time>, gap: nat) {
    forall i | 0 < i < |times| :: times[i] - times[i - 1] <= gap
  }

  // ---------- what is asked of the environment ----------

  /** Time does not run back, frames arrive only while subscribed, and no event finds the last tick more than a
    * period old. */
  ghost predicate OnSchedule(m: Monitor, start: Time, tes: seq<Timed>, period: nat) {
    tes != [] ==>
      var before, te := tes[..|tes| - 1], tes[|tes| - 1];
      && OnSchedule(m, start, before, period)
      && Latest(start, before) <= te.at <= LastTick(start, before) + period
      && (te.event.Received? ==> Subscribed(m.subscribed, before))
  }

  /** A relay was there at the start, or at some tick, and has not closed since. */
  ghost predicate Subscribed(relay: bool, tes: seq<Timed>) {
    || (relay && forall i | 0 <= i < |tes| :: !tes[i].event.RelayClosed?)
    || (exists k | 0 <= k < |tes| :: RelayAt(tes, k) && forall i | k < i < |tes| :: !tes[i].event.RelayClosed?)
  }

  predicate RelayAt(tes: seq<Timed>, k: nat)
    requires k < |tes|
  {
    tes[k].event.Tick? && tes[k].event.relay
  }

  /** One more event keeps the subscription, ends it, or begins one. */
  lemma SubscribedStep(relay: bool, before: seq<Timed>, te: Timed)
    ensures Subscribed(relay, before + [te]) <==>
            !te.event.RelayClosed? && (Subscribed(relay, before) || (te.event.Tick? && te.event.relay))
  {
    var tes, n := before + [te], |before|;
    if te.event.Tick? && te.event.relay {
      assert RelayAt(tes, n);
    } else if !te.event.RelayClosed? && Subscribed(relay, before) {
      if !(relay && forall i | 0 <= i < n :: !before[i].event.RelayClosed?) {
        var k :| 0 <= k < n && RelayAt(before, k) && forall i | k < i < n :: !before[i].event.RelayClosed?;
        assert RelayAt(tes, k);
      }
    }
    if !te.event.RelayClosed? && Subscribed(relay, tes) && !(te.event.Tick? && te.event.relay) {
      if relay && forall i | 0 <= i < |tes| :: !tes[i].event.RelayClosed? {
        assert forall i | 0 <= i < n :: before[i] == tes[i];
      } else {
        var k :| 0 <= k < |tes| && RelayAt(tes, k) && forall i | k < i < |tes| :: !tes[i].event.RelayClosed?;
        assert RelayAt(before, k);
        assert forall i | k < i < n :: before[i] == tes[i];
      }
    }
    if te.event.RelayClosed? {
      assert tes[n].event.RelayClosed?;
    }
  }

  /** The monitor is subscribed exactly when the events say so: it resubscribes at the first tick that finds a relay. */
  lemma {:induction false} SubscribedExactly(m: Monitor, tes: seq<Timed>)
    ensures MRun(m, tes).subscribed <==> Subscribed(m.subscribed, tes)
  {
    hide Subscribed;
    if tes == [] {
      NoEventsNoChange(m.subscribed);
    } else {
      var before, te := tes[..|tes| - 1], tes[|tes| - 1];
      SubscribedExactly(m, before);
      SubscribedStep(m.subscribed, before, te);
      assert tes == before + [te];
    }
  }

  lemma NoEventsNoChange(relay: bool)
    ensures Subscribed(relay, []) <==> relay
  {
  }

  ghost predicate Fresh(m: Monitor, start: Time) {
    m.lastVideo == start && !m.everLive && !m.showingFallback && m.recoveringSince.None?
  }

  // ---------- the monitor's variables are the reference notions ----------

  lemma {:induction false} MonitorTracksVideo(m: Monitor, start: Time, tes: seq<Timed>, period: nat)
    requires Fresh(m, start) && OnSchedule(m, start, tes, period)
    ensures var t := MRun(m, tes);
            && t.lastVideo == LastVideo(start, tes) && (t.everLive <==> AnyVideo(tes))
            && t.offline == m.offline && t.recovery == m.recovery
            && t.lastVideo <= Latest(start, tes) && LastTick(start, tes) <= Latest(start, tes)
  {
    hide Subscribed;
    if tes != [] {
      SubscribedExactly(m, tes[..|tes| - 1]);
      var before, te := tes[..|tes| - 1], tes[|tes| - 1];
      MonitorTracksVideo(m, start, before, period);
      MonitorKeepsConstants(MRun(m, before), te);
      assert tes == before + [te];
      assert AnyVideo(tes) <==> AnyVideo(before) || IsVideoFrame(te) by {
        assert forall x :: x in tes <==> x in before || x == te;
      }
    }
  }

  // ---------- failing over ----------

  /** The darkness a monitor bears, from the trace: longer before the first frame. */
  function ThresholdAt(m: Monitor, tes: seq<Timed>): nat {
    if AnyVideo(tes) then m.offline else Max(m.offline, STARTUP_GRACE)
  }

  ghost predicate SwitchesAt(m: Monitor, tes: seq<Timed>) {
    tes != [] && !MRun(m, tes[..|tes| - 1]).showingFallback && MRun(m, tes).showingFallback
  }

  predicate RestoresAt(m: Monitor, tes: seq<Timed>) {
    tes != [] && MRun(m, tes[..|tes| - 1]).showingFallback && !MRun(m, tes).showingFallback
  }

  /** The graces in milliseconds: 250 at least, and five seconds before the first frame. */
  lemma GracesInMilliseconds(config: Config, intended: SourceId, fallback: SourceId, relay: bool, start: Time,
                             tes: seq<Timed>)
    ensures var m := StartMonitor(intended, fallback, config, relay, start);
            && Fresh(m, start) && m.subscribed == relay && m.intended == intended && m.fallback == fallback
            && m.recovery == 1_000_000 * (if config.recoveryGraceMs > 250 then config.recoveryGraceMs else 250)
            && m.offline == 1_000_000 * (if config.offlineGraceMs > 250 then config.offlineGraceMs else 250)
            && (AnyVideo(tes) ==> ThresholdAt(m, tes) == m.offline)
            && (!AnyVideo(tes) && config.offlineGraceMs <= 5000 ==> ThresholdAt(m, tes) == 5_000_000_000)
            && (!AnyVideo(tes) && config.offlineGraceMs >= 5000 ==> ThresholdAt(m, tes) == m.offline)
    ensures RECOVERY_GAP == 750_000_000 && TICK_PERIOD == 250_000_000
  {
  }

  /** The fallback is shown only when the source has been dark for longer than the threshold. */
  lemma NeverTooSoon(m: Monitor, start: Time, tes: seq<Timed>, period: nat)
    requires Fresh(m, start) && OnSchedule(m, start, tes, period) && SwitchesAt(m, tes)
    ensures var before := tes[..|tes| - 1];
            tes[|tes| - 1].event.Tick? && tes[|tes| - 1].at - LastVideo(start, before) > ThresholdAt(m, before)
  {
    MonitorTracksVideo(m, start, tes[..|tes| - 1], period);
  }

  /** While recovery waits, the last tick has seen no more than the recovery grace of it. */
  lemma {:induction false} RecoveryAtLastTick(m: Monitor, start: Time, tes: seq<Timed>, period: nat)
    requires Fresh(m, start) && OnSchedule(m, start, tes, period)
    ensures var t := MRun(m, tes);
            t.recoveringSince.Some? ==>
              && t.showingFallback && t.recoveringSince.value <= t.lastVideo
              && LastTick(start, tes) <= t.recoveringSince.value + m.recovery
  {
    if tes != [] {
      RecoveryAtLastTick(m, start, tes[..|tes| - 1], period);
      MonitorTracksVideo(m, start, tes[..|tes| - 1], period);
    }
  }

  /** How dark the source can have been at a tick that leaves it shown: a restore accepts a frame that is 750 ms
    * old, and comes within one period of the end of the recovery grace. */
  function Darkness(m: Monitor, tes: seq<Timed>, period: nat): nat {
    Max(ThresholdAt(m, tes), Min(RECOVERY_GAP, m.recovery + period))
  }

  lemma {:induction false} DarkAtLastTick(m: Monitor, start: Time, tes: seq<Timed>, period: nat)
    requires Fresh(m, start) && OnSchedule(m, start, tes, period)
    ensures !MRun(m, tes).showingFallback ==> LastTick(start, tes) <= LastVideo(start, tes) + Darkness(m, tes, period)
  {
    if tes != [] {
      var before := tes[..|tes| - 1];
      DarkAtLastTick(m, start, before, period);
      RecoveryAtLastTick(m, start, before, period);
      MonitorTracksVideo(m, start, before, period);
      MonitorTracksVideo(m, start, tes, period);
    }
  }

  /** As long as the selected source is shown, it has not been dark for longer than the threshold, or than a restore
    * accepts, plus one tick period. */
  lemma ReplacedWithin(m: Monitor, start: Time, tes: seq<Timed>, period: nat)
    requires Fresh(m, start) && OnSchedule(m, start, tes, period)
    requires tes != [] && !MRun(m, tes[..|tes| - 1]).showingFallback
    ensures var before := tes[..|tes| - 1];
            tes[|tes| - 1].at - LastVideo(start, before) <= Darkness(m, before, period) + period
  {
    DarkAtLastTick(m, start, tes[..|tes| - 1], period);
  }

  // ---------- the exact condition ----------

  /** Ticks come at the start and then exactly one period apart. */
  ghost predicate Regular(start: Time, tes: seq<Timed>, period: nat) {
    tes != [] ==>
      var before, te := tes[..|tes| - 1], tes[|tes| - 1];
      && Regular(start, before, period)
      && (te.event.Tick? ==> te.at == if HasTicked(before) then LastTick(start, before) + period else start)
  }

  ghost predicate HasTicked(tes: seq<Timed>) {
    tes != [] && (tes[|tes| - 1].event.Tick? || HasTicked(tes[..|tes| - 1]))
  }

  /** Failover is prompt under a configuration and a tick period: no event of any run finds the selected source still
    * shown more than threshold plus one period after its last frame. */
  ghost predicate Prompt(config: Config, period: nat) {
    forall m, start, tes | Starts(m, config, start) && OnSchedule(m, start, tes, period) ::
      InTime(m, start, tes, period)
  }

  /** The same for runs whose ticks are regular. */
  ghost predicate PromptWhenRegular(config: Config, period: nat) {
    forall m, start, tes | Starts(m, config, start) && OnSchedule(m, start, tes, period)
        && Regular(start, tes, period) ::
      InTime(m, start, tes, period)
  }

  ghost predicate Starts(m: Monitor, config: Config, start: Time) {
    exists intended, fallback, relay :: m == StartMonitor(intended, fallback, config, relay, start)
  }

  ghost predicate InTime(m: Monitor, start: Time, tes: seq<Timed>, period: nat) {
    tes != [] && !MRun(m, tes[..|tes| - 1]).showingFallback ==>
      tes[|tes| - 1].at - LastVideo(start, tes[..|tes| - 1]) <= ThresholdAt(m, tes[..|tes| - 1]) + period
  }

  /** The darkness at which a restore can happen does not exceed the offline grace. */
  predicate GraceCoversRestore(config: Config, period: nat) {
    Max(config.offlineGraceMs, LEAST_GRACE_MS) * MS
    >= Min(RECOVERY_GAP, Max(config.recoveryGraceMs, LEAST_GRACE_MS) * MS + period)
  }

  /** Failover is prompt exactly when the offline grace covers the darkness at which a restore can happen, whether the
    * ticks are exactly one period apart or only at most. */
  lemma PromptExactly(config: Config, period: nat)
    requires period > 0
    ensures Prompt(config, period) <==> GraceCoversRestore(config, period)
    ensures PromptWhenRegular(config, period) <==> GraceCoversRestore(config, period)
  {
    if GraceCoversRestore(config, period) {
      forall m, start, tes | Starts(m, config, start) && OnSchedule(m, start, tes, period)
        ensures InTime(m, start, tes, period)
      {
        if tes != [] && !MRun(m, tes[..|tes| - 1]).showingFallback {
          ReplacedWithin(m, start, tes, period);
        }
      }
    } else {
      var m, tes := LateReplacement(config, period);
      assert Starts(m, config, 0);
      assert !InTime(m, 0, tes, period);
    }
  }

  const TICK_PERIOD: nat := 250 * MS

  /** At the program's own tick of 250 ms. */
  lemma PromptAtOwnTick(config: Config)
    ensures PromptWhenRegular(config, TICK_PERIOD)
       <==> config.offlineGraceMs >= 750 || config.offlineGraceMs >= Max(config.recoveryGraceMs, LEAST_GRACE_MS) + 250
  {
    PromptExactly(config, TICK_PERIOD);
  }

  const FRAME: Event := Received([TAG_VIDEO])

  /** What a run has come to: its ticks are regular, the last one at `tick`, and the monitor is m. */
  ghost predicate Reached(m0: Monitor, tes: seq<Timed>, period: nat, m: Monitor, tick: Time, latest: Time) {
    && OnSchedule(m0, 0, tes, period) && Regular(0, tes, period) && HasTicked(tes)
    && MRun(m0, tes) == m && LastTick(0, tes) == tick && Latest(0, tes) == latest
  }

  /** One more event: a frame, or the next regular tick. */
  lemma Extend(m0: Monitor, tes: seq<Timed>, period: nat, m: Monitor, tick: Time, latest: Time, te: Timed)
    requires Reached(m0, tes, period, m, tick, latest)
    requires latest <= te.at <= tick + period
    requires te == Timed(Tick(true), tick + period) || (te.event == FRAME && m.subscribed)
    ensures var after := MonitorStep(m, te);
            Reached(m0, tes + [te], period, after, if te.event.Tick? then te.at else tick, te.at)
  {
    hide Subscribed;
    assert (tes + [te])[..|tes|] == tes;
    SubscribedExactly(m0, tes);
  }

  lemma FirstTick(m: Monitor, period: nat)
    requires m.lastVideo == 0 && !m.showingFallback && m.subscribed
    ensures Reached(m, [Timed(Tick(true), 0)], period, m, 0, 0)
  {
    var tes := [Timed(Tick(true), 0)];
    assert tes[..0] == [];
    assert MRun(m, []) == m;
  }

  /** Ticks without a frame until the fallback is shown. */
  lemma GoDark(m0: Monitor, period: nat) returns (tes: seq<Timed>, m: Monitor, tick: Time)
    requires period > 0 && Fresh(m0, 0) && m0.subscribed
    ensures m == m0.(showingFallback := true)
    ensures Reached(m0, tes, period, m, tick, tick)
  {
    hide Reached;
    FirstTick(m0, period);
    tes, m, tick := [Timed(Tick(true), 0)], m0, 0;
    while !m.showingFallback
      invariant m == m0 || m == m0.(showingFallback := true)
      invariant Reached(m0, tes, period, m, tick, tick)
      invariant !m.showingFallback ==> tick <= Threshold(m0)
      decreases !m.showingFallback, Threshold(m0) + period - tick
    {
      var te := Timed(Tick(true), tick + period);
      Extend(m0, tes, period, m, tick, tick, te);
      tes, m, tick := tes + [te], MonitorStep(m, te), te.at;
    }
  }

  /** Where the frames of the late run stop: recovery since `since`, the last frame at `last`. */
  ghost predicate Recovering(m0: Monitor, m: Monitor, since: Time, seen: Time) {
    m == m0.(showingFallback := true, everLive := true, recoveringSince := Some(since), lastVideo := seen)
  }

  /** One period of recovery: a frame at the tick, or at `last` if that comes before, or none after it. */
  lemma RecoverOnce(m0: Monitor, tes: seq<Timed>, period: nat, m: Monitor, tick: Time, latest: Time, since: Time,
      last: Time)
    returns (tes': seq<Timed>, m': Monitor)
    requires period > 0 && m0.subscribed
    requires Reached(m0, tes, period, m, tick, latest) && Recovering(m0, m, since, m.lastVideo)
    requires since <= m.lastVideo <= last && latest <= tick + period && since <= tick + period
    requires m.lastVideo < last ==> latest <= last
    requires tick + period <= since + m0.recovery && tick + period <= last + RECOVERY_GAP
    ensures Reached(m0, tes', period, m', tick + period, tick + period) && Recovering(m0, m', since, m'.lastVideo)
    ensures since <= m'.lastVideo <= last
    ensures m'.lastVideo < last ==> tick + period <= last
  {
    hide Reached;
    tes', m' := tes, m;
    var latest' := latest;
    if m.lastVideo < last {
      var frame := Timed(FRAME, Min(tick + period, last));
      Extend(m0, tes, period, m, tick, latest, frame);
      tes', m', latest' := tes + [frame], MonitorStep(m, frame), frame.at;
    }
    var te := Timed(Tick(true), tick + period);
    Extend(m0, tes', period, m', tick, latest', te);
    tes', m' := tes' + [te], MonitorStep(m', te);
  }

  /** Frames at every tick from `since` on, but none after `last`, until the tick at the end of the recovery grace. */
  lemma Recover(m0: Monitor, tes0: seq<Timed>, period: nat, dark: Monitor, tick0: Time, since: Time, last: Time, n: nat)
    returns (tes: seq<Timed>, m: Monitor, latest: Time)
    requires period > 0 && Fresh(m0, 0) && m0.subscribed && dark == m0.(showingFallback := true)
    requires Reached(m0, tes0, period, dark, tick0, tick0)
    requires tick0 <= since < tick0 + period && since <= last
    requires since + m0.recovery == tick0 + n * period && since + m0.recovery <= last + RECOVERY_GAP
    ensures Reached(m0, tes, period, m, since + m0.recovery, latest) && latest <= since + m0.recovery
    ensures Recovering(m0, m, since, m.lastVideo) && since <= m.lastVideo <= last
    ensures m.lastVideo < last ==> latest <= last
  {
    hide Reached;
    var frame := Timed(FRAME, since);
    Extend(m0, tes0, period, dark, tick0, tick0, frame);
    tes, m, latest := tes0 + [frame], MonitorStep(dark, frame), since;
    var left, tick: Time := n, tick0;
    while left > 0
      invariant 0 <= left <= n && since + m0.recovery == tick + left * period
      invariant Reached(m0, tes, period, m, tick, latest) && Recovering(m0, m, since, m.lastVideo)
      invariant since <= m.lastVideo <= last && since < tick + period && latest <= Max(tick, since)
      invariant m.lastVideo < last ==> latest <= last
    {
      Distribute(left - 1, period);
      tes, m := RecoverOnce(m0, tes, period, m, tick, latest, since, last);
      left, tick, latest := left - 1, tick + period, tick + period;
    }
    assert left * period == 0;
  }

  /** A multiple of the period that covers a span, by less than a period. */
  lemma Periods(span: nat, period: nat) returns (n: nat)
    requires period > 0
    ensures span <= n * period < span + period
  {
    n := (span + period - 1) / period;
    assert (span + period - 1) == n * period + (span + period - 1) % period;
  }

  /** A restore at the next tick, and one more tick. */
  lemma RestoreLate(m0: Monitor, tes0: seq<Timed>, period: nat, m: Monitor, tick: Time, latest: Time, since: Time)
    returns (tes: seq<Timed>)
    requires Fresh(m0, 0) && m0.subscribed && tick == since + m0.recovery && latest <= tick + period
    requires Reached(m0, tes0, period, m, tick, latest) && Recovering(m0, m, since, m.lastVideo)
    requires m0.offline < tick + period - m.lastVideo <= RECOVERY_GAP && period > 0
    ensures OnSchedule(m0, 0, tes, period) && Regular(0, tes, period)
    ensures tes != [] && !MRun(m0, tes[..|tes| - 1]).showingFallback
    ensures tes[|tes| - 1].at - LastVideo(0, tes[..|tes| - 1]) > ThresholdAt(m0, tes[..|tes| - 1]) + period
  {
    hide Reached;
    var restore, late := Timed(Tick(true), tick + period), Timed(Tick(true), tick + 2 * period);
    Extend(m0, tes0, period, m, tick, latest, restore);
    var tes1, restored := tes0 + [restore], MonitorStep(m, restore);
    Extend(m0, tes1, period, restored, restore.at, restore.at, late);
    tes := tes1 + [late];
    assert tes[..|tes| - 1] == tes1;
    ReachedMeans(m0, tes1, period, restored, restore.at, restore.at);
    ReachedMeans(m0, tes, period, MonitorStep(restored, late), late.at, late.at);
  }

  /** When the grace does not cover the restore: a start without video until the failover, then frames from exactly the
    * recovery grace before a tick until as long before the next one as a restore accepts, then that restore, and a
    * whole period until the next tick. */
  lemma LateReplacement(config: Config, period: nat) returns (m: Monitor, tes: seq<Timed>)
    requires period > 0 && !GraceCoversRestore(config, period)
    ensures m == StartMonitor(1, 2, config, true, 0) && OnSchedule(m, 0, tes, period) && Regular(0, tes, period)
    ensures tes != [] && !MRun(m, tes[..|tes| - 1]).showingFallback
    ensures tes[|tes| - 1].at - LastVideo(0, tes[..|tes| - 1]) > ThresholdAt(m, tes[..|tes| - 1]) + period
  {
    hide Reached, OnSchedule, Regular, MRun, LastVideo, ThresholdAt;
    m := StartMonitor(1, 2, config, true, 0);
    var tes1, dark, tick := GoDark(m, period);
    var n := Periods(m.recovery, period);
    var since := tick + n * period - m.recovery;
    var end: Time := since + m.recovery;
    var last: Time := end + period - Min(RECOVERY_GAP, m.recovery + period);
    var tes2, recovering, latest := Recover(m, tes1, period, dark, tick, since, last, n);
    if recovering.lastVideo < last {
      var frame := Timed(FRAME, last);
      Extend(m, tes2, period, recovering, end, latest, frame);
      tes2, recovering, latest := tes2 + [frame], MonitorStep(recovering, frame), last;
    }
    tes := RestoreLate(m, tes2, period, recovering, end, latest, since);
  }

  lemma ReachedMeans(m0: Monitor, tes: seq<Timed>, period: nat, m: Monitor, tick: Time, latest: Time)
    requires Reached(m0, tes, period, m, tick, latest) && Fresh(m0, 0)
    ensures OnSchedule(m0, 0, tes, period) && Regular(0, tes, period) && MRun(m0, tes) == m
    ensures LastVideo(0, tes) == m.lastVideo && ThresholdAt(m0, tes) == Threshold(m)
  {
    MonitorTracksVideo(m0, 0, tes, period);
  }

  // ---------- recovering ----------

  /** Since index k: a first frame at `since`, then frames with gaps of at most `gap`, the last one still recent at
    * the last tick. */
  ghost predicate SteadySince(start: Time, tes: seq<Timed>, k: nat, since: Time, gap: nat) {
    && k < |tes| && IsVideoFrame(tes[k]) && tes[k].at == since
    && VideoTimes(tes[k..]) != [] && VideoTimes(tes[k..])[0] == since
    && VideoTimes(tes[k..])[|VideoTimes(tes[k..])| - 1] == LastVideo(start, tes)
    && GapsAtMost(VideoTimes(tes[k..]), gap)
    && LastTick(start, tes) <= LastVideo(start, tes) + RECOVERY_GAP
  }

  lemma SuffixStep(tes: seq<Timed>, k: nat)
    requires k < |tes|
    ensures tes[k..][..|tes[k..]| - 1] == tes[..|tes| - 1][k..]
    ensures tes[k..][|tes[k..]| - 1] == tes[|tes| - 1]
  {
  }

  lemma {:induction false} RecoveringIsSteady(m: Monitor, start: Time, tes: seq<Timed>, period: nat) returns (k: nat)
    requires Fresh(m, start) && OnSchedule(m, start, tes, period)
    ensures MRun(m, tes).recoveringSince.Some? ==>
              MRun(m, tes).showingFallback && SteadySince(start, tes, k, MRun(m, tes).recoveringSince.value,
                  RECOVERY_GAP + period)
  {
    k := 0;
    if tes != [] {
      var before, te := tes[..|tes| - 1], tes[|tes| - 1];
      k := RecoveringIsSteady(m, start, before, period);
      MonitorTracksVideo(m, start, before, period);
      MonitorTracksVideo(m, start, tes, period);
      var since := MRun(m, tes).recoveringSince;
      if since.Some? {
        if MRun(m, before).recoveringSince.Some? {
          SuffixStep(tes, k);
        } else {
          k := |tes| - 1;
          assert tes[k..] == [te] && [te][..0] == [];
          assert VideoTimes([te]) == VideoTimes([]) + [te.at] == [te.at];
        }
      }
    }
  }

  /** A restore is really confirmed: there is a first frame after which the source's consecutive frames were at most
    * 750 ms plus one tick period apart, the last is at most 750 ms old, and the window exceeds the recovery grace. */
  lemma RecoveryConfirmed(m: Monitor, start: Time, tes: seq<Timed>, period: nat)
    requires Fresh(m, start) && OnSchedule(m, start, tes, period) && RestoresAt(m, tes)
    ensures var before, now := tes[..|tes| - 1], tes[|tes| - 1].at;
            && now - LastVideo(start, before) <= RECOVERY_GAP
            && exists k | 0 <= k < |before| ::
                 SteadySince(start, before, k, before[k].at, RECOVERY_GAP + period) && now - before[k].at > m.recovery
  {
    var before := tes[..|tes| - 1];
    MonitorTracksVideo(m, start, before, period);
    var k := RecoveringIsSteady(m, start, before, period);
  }

  /** From index s on, every event finds the last frame at most 750 ms old. */
  ghost predicate LiveFrom(start: Time, tes: seq<Timed>, s: nat) {
    forall i | s < i < |tes| :: tes[i].at - LastVideo(start, tes[..i]) <= RECOVERY_GAP
  }

  /** What one event does to a recovery that waits, when it finds the last frame recent and restores nothing. */
  lemma KeepsWaiting(m: Monitor, te: Timed)
    requires m.showingFallback && m.recoveringSince.Some? && te.at - m.lastVideo <= RECOVERY_GAP
    requires MonitorStep(m, te).showingFallback
    ensures MonitorStep(m, te).recoveringSince == m.recoveringSince
    ensures te.event.Tick? ==> te.at - m.recoveringSince.value <= m.recovery
  {
  }

  /** A frame on the fallback begins a recovery unless one waits already. */
  lemma FrameBeginsRecovery(m: Monitor, te: Timed)
    requires m.showingFallback && m.subscribed && IsVideoFrame(te)
    requires m.recoveringSince.Some? ==> m.recoveringSince.value <= te.at
    ensures var t := MonitorStep(m, te); t.recoveringSince.Some? && t.recoveringSince.value <= te.at
  {
  }

  lemma {:induction false} WaitingForRestore(m: Monitor, start: Time, tes: seq<Timed>, period: nat, s: nat)
    requires Fresh(m, start) && OnSchedule(m, start, tes, period)
    requires s < |tes| && IsVideoFrame(tes[s]) && LiveFrom(start, tes, s)
    requires forall i | s <= i <= |tes| :: MRun(m, tes[..i]).showingFallback
    ensures var t := MRun(m, tes);
            && t.recoveringSince.Some? && t.recoveringSince.value <= tes[s].at
            && LastTick(start, tes) <= tes[s].at + m.recovery
  {
    hide Subscribed, AnyVideo, MonitorStep, IsVideoFrame;
    var before, te := tes[..|tes| - 1], tes[|tes| - 1];
    assert tes[..|tes|] == tes && MRun(m, before).showingFallback && MRun(m, tes).showingFallback;
    SubscribedExactly(m, before);
    MonitorTracksVideo(m, start, before, period);
    SinceIsPast(m, start, before, period);
    if s == |tes| - 1 {
      FrameIsReceived(te);
      FrameBeginsRecovery(MRun(m, before), te);
    } else {
      forall i | s <= i <= |before| ensures MRun(m, before[..i]).showingFallback {
        assert before[..i] == tes[..i];
      }
      forall i | s < i < |before| ensures before[i].at - LastVideo(start, before[..i]) <= RECOVERY_GAP {
        assert before[..i] == tes[..i];
      }
      WaitingForRestore(m, start, before, period, s);
      KeepsWaiting(MRun(m, before), te);
    }
  }

  lemma FrameIsReceived(te: Timed)
    requires IsVideoFrame(te)
    ensures te.event.Received?
  {
  }

  lemma {:induction false} SinceIsPast(m: Monitor, start: Time, tes: seq<Timed>, period: nat)
    requires Fresh(m, start) && OnSchedule(m, start, tes, period)
    ensures MRun(m, tes).recoveringSince.Some? ==> MRun(m, tes).recoveringSince.value <= Latest(start, tes)
    ensures LastTick(start, tes) <= Latest(start, tes)
  {
    if tes != [] {
      SinceIsPast(m, start, tes[..|tes| - 1], period);
    }
  }

  /** While on the fallback, a frame at s followed by steady video brings the source back by s + recovery + one period:
    * an event later than that has a restore before it. */
  lemma RestoredInTime(m: Monitor, start: Time, tes: seq<Timed>, period: nat, s: nat)
    requires Fresh(m, start) && OnSchedule(m, start, tes, period)
    requires s < |tes| && IsVideoFrame(tes[s]) && MRun(m, tes[..s]).showingFallback && LiveFrom(start, tes, s)
    requires tes[|tes| - 1].at > tes[s].at + m.recovery + period
    ensures exists i :: s < i < |tes| && !MRun(m, tes[..i]).showingFallback
  {
    if forall i | s < i < |tes| :: MRun(m, tes[..i]).showingFallback {
      var before := tes[..|tes| - 1];
      assert s < |before|;
      forall i | s <= i <= |before| ensures MRun(m, before[..i]).showingFallback {
        assert before[..i] == tes[..i];
      }
      forall i | s < i < |before| ensures before[i].at - LastVideo(start, before[..i]) <= RECOVERY_GAP {
        assert before[..i] == tes[..i];
      }
      WaitingForRestore(m, start, before, period, s);
      assert false;
    }
  }

  // ---------- the rate of restores ----------

  function RestoreCount(m: Monitor, tes: seq<Timed>): nat {
    if tes == [] then 0
    else
      var before := tes[..|tes| - 1];
      RestoreCount(m, before) + (if RestoresAt(m, tes) then 1 else 0)
  }

  /** The recovery graces that the restores of a run have waited for, added up. */
  function GraceSpent(m: Monitor, tes: seq<Timed>): nat {
    if tes == [] then 0
    else
      var before := tes[..|tes| - 1];
      GraceSpent(m, before) + (if RestoresAt(m, tes) then m.recovery else 0)
  }

  lemma {:induction false} GraceIsCounted(m: Monitor, tes: seq<Timed>)
    ensures GraceSpent(m, tes) == RestoreCount(m, tes) * m.recovery
  {
    if tes != [] {
      GraceIsCounted(m, tes[..|tes| - 1]);
      Distribute(RestoreCount(m, tes[..|tes| - 1]), m.recovery);
    }
  }

  lemma Distribute(k: nat, n: nat)
    ensures (k + 1) * n == k * n + n
  {
  }

  lemma {:induction false} GraceFitsInTime(m: Monitor, start: Time, tes: seq<Timed>, period: nat)
    requires Fresh(m, start) && OnSchedule(m, start, tes, period)
    ensures GraceSpent(m, tes) <= Latest(start, tes) - start
    ensures RestoreCount(m, tes) > 0 ==> GraceSpent(m, tes) < Latest(start, tes) - start
    ensures MRun(m, tes).recoveringSince.Some? ==> GraceSpent(m, tes) <= MRun(m, tes).recoveringSince.value - start
  {
    hide LastVideo, AnyVideo, IsVideo, LastTick;
    if tes != [] {
      GraceFitsInTime(m, start, tes[..|tes| - 1], period);
      MonitorTracksVideo(m, start, tes[..|tes| - 1], period);
    }
  }

  /** Within one monitoring run, k restores take more than k times the recovery grace. */
  lemma RestoresTakeTime(m: Monitor, start: Time, tes: seq<Timed>, period: nat)
    requires Fresh(m, start) && OnSchedule(m, start, tes, period) && RestoreCount(m, tes) > 0
    ensures RestoreCount(m, tes) * m.recovery < Latest(start, tes) - start
  {
    GraceFitsInTime(m, start, tes, period);
    GraceIsCounted(m, tes);
  }

  // ---------- the monitor in the supervisor ----------

  predicate NoNewIntent(tes: seq<Timed>) {
    forall i | 0 <= i < |tes| :: !tes[i].event.IntentChanged? && !tes[i].event.IntentClosed?
  }

  /** While the selection stands, the supervisor is its monitor, and the monitor decides what is routed. */
  lemma {:induction false} SupervisorFollowsMonitor(s: Supervisor, m: Monitor, tes: seq<Timed>)
    requires s.phase == Monitoring(m) && NoNewIntent(tes)
    requires s.routed == Some(if m.showingFallback then m.fallback else m.intended)
    ensures var now := MRun(m, tes);
            && Run(s, tes).phase == Monitoring(now)
            && now.intended == m.intended && now.fallback == m.fallback
            && Run(s, tes).routed == Some(if now.showingFallback then m.fallback else m.intended)
  {
    if tes != [] {
      var before, te := tes[..|tes| - 1], tes[|tes| - 1];
      SupervisorFollowsMonitor(s, m, before);
      MonitorKeepsConstants(MRun(m, before), te);
    }
  }

  /** From a selection on: an event that finds the selected source dark for longer than the bound finds the fallback
    * routed; whenever something else than the selection is routed, it is the fallback, and a switch (see NeverTooSoon)
    * has put it there. */
  lemma RoutedByDarkness(s0: Supervisor, intent: Option<SourceId>, config: Config, relay: bool, start: Time,
                         tes: seq<Timed>, te: Timed, period: nat)
    requires !MirrorsIntent(intent, config) && NoNewIntent(tes)
    requires var m := StartMonitor(intent.value, config.fallback.value, config, relay, start);
             OnSchedule(m, start, tes, period) && OnSchedule(m, start, tes + [te], period)
    ensures var s := Run(Observe(s0, intent, config, relay, start), tes);
            var m := StartMonitor(intent.value, config.fallback.value, config, relay, start);
            && s.phase.Monitoring?
            && (te.at - LastVideo(start, tes) > Darkness(m, tes, period) + period ==> s.routed == config.fallback)
            && (s.routed != intent ==> s.routed == config.fallback && exists k | 0 < k <= |tes| ::
                  SwitchesAt(m, tes[..k]))
  {
    var m := StartMonitor(intent.value, config.fallback.value, config, relay, start);
    SupervisorFollowsMonitor(Observe(s0, intent, config, relay, start), m, tes);
    assert (tes + [te])[..|tes|] == tes;
    if !MRun(m, tes).showingFallback {
      ReplacedWithin(m, start, tes + [te], period);
    } else {
      var k := FindSwitch(m, tes);
    }
  }

  lemma {:induction false} FindSwitch(m: Monitor, tes: seq<Timed>) returns (k: nat)
    requires !m.showingFallback && MRun(m, tes).showingFallback
    ensures 0 < k <= |tes| && SwitchesAt(m, tes[..k])
  {
    var before := tes[..|tes| - 1];
    if MRun(m, before).showingFallback {
      k := FindSwitch(m, before);
      assert before[..k] == tes[..k];
    } else {
      k := |tes|;
      assert tes[..k] == tes;
    }
  }
}
