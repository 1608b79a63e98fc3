/** The supervisor and the router together: what the supervisor routes is the selection the router watches. */
module FailoverProgram {
  import opened Wrappers
  import opened Flv
  import opened TagReader
  import F = Failover
  import Timing = FailoverTiming
  import R = ProgramRouter
  import Switching = RouterSwitching

  /** What one event makes the supervisor route. */
  function Routed(s: F.Supervisor, te: F.Timed): seq<Option<SourceId>> {
    var t := F.Step(s, te);
    var observes := te.event.IntentChanged? || (te.event.IntentClosed? && s.phase.Monitoring?);
    if s.phase.Done? then []
    else if observes then [t.routed]
    else if !s.phase.Monitoring? || !t.phase.Monitoring? then []
    else if t.phase.m.showingFallback != s.phase.m.showingFallback then [t.routed]
    else []
  }

  function Routes(s: F.Supervisor, tes: seq<F.Timed>): seq<Option<SourceId>> {
    if tes == [] then []
    else Routes(s, tes[..|tes| - 1]) + Routed(F.Run(s, tes[..|tes| - 1]), tes[|tes| - 1])
  }

  /** The selections written to the router's watch. */
  function Selections(es: seq<R.Event>): seq<Option<SourceId>> {
    if es == [] then []
    else Selections(es[..|es| - 1]) + (if es[|es| - 1].Selected? then [es[|es| - 1].source] else [])
  }

  function Last(initial: Option<SourceId>, written: seq<Option<SourceId>>): Option<SourceId> {
    if written == [] then initial else written[|written| - 1]
  }

  lemma RoutedStep(s: F.Supervisor, te: F.Timed)
    ensures F.Step(s, te).routed == Last(s.routed, Routed(s, te))
  {
  }

  lemma {:induction false} RoutedIsLast(s: F.Supervisor, tes: seq<F.Timed>)
    ensures F.Run(s, tes).routed == Last(s.routed, Routes(s, tes))
  {
    hide F.Step, Routed;
    if tes != [] {
      RoutedIsLast(s, tes[..|tes| - 1]);
      RoutedStep(F.Run(s, tes[..|tes| - 1]), tes[|tes| - 1]);
    }
  }

  lemma {:induction false} SelectedIsLast(initial: Option<SourceId>, es: seq<R.Event>)
    ensures Switching.LastSelected(initial, es) == Last(initial, Selections(es))
  {
    if es != [] {
      SelectedIsLast(initial, es[..|es| - 1]);
    }
  }

  /** When the router's selections are the supervisor's routes, the watch holds what the supervisor has routed. */
  lemma WatchHoldsRouted(s: F.Supervisor, tes: seq<F.Timed>, r: R.Router, es: seq<R.Event>)
    requires r.watched == s.routed && Selections(es) == Routes(s, tes)
    ensures R.Run(r, es).watched == F.Run(s, tes).routed
  {
    Switching.WatchHoldsLastSelected(r, es);
    SelectedIsLast(r.watched, es);
    RoutedIsLast(s, tes);
  }

  /** A selection that has changed and is not waiting to be read has been read. */
  lemma {:induction false} ChangedIsRead(r: R.Router, es: seq<R.Event>)
    requires R.Stays(r, es) && !r.unseen
    ensures Switching.LastObserved(r, es).None? && !R.Run(r, es).unseen ==> R.Run(r, es).watched == r.watched
  {
    hide R.Stays, R.Step;
    R.StaysBefore(r, es);
    if es != [] {
      var before, e := es[..|es| - 1], es[|es| - 1];
      ChangedIsRead(r, before);
      R.StaysBefore(r, before);
      Switching.WatchStep(R.Run(r, before), e);
    }
  }

  /** The supervisor has begun to monitor a selection, and the router to show it. */
  predicate Begun(intent: Option<SourceId>, config: F.Config, r: R.Router) {
    && !F.MirrorsIntent(intent, config)
    && r.phase.Forwarding? && r.phase.seg.pending.None? && Some(r.phase.seg.source) == intent
    && r.watched == intent && !r.unseen
  }

  /** A dark source gives way to the fallback's first keyframe: when an event finds the selected source dark for longer
    * than the bound, the watch holds the fallback. If the router has yet to read that, reading it subscribes to the
    * fallback; if it has, the fallback is what is pending, unless its relay has closed, and the first keyframe on that
    * relay is published as the fallback's, at the current output time. */
  lemma FallbackTakesOver(s0: F.Supervisor, intent: Option<SourceId>, config: F.Config, relay: bool, start: F.Time,
                          tes: seq<F.Timed>, te: F.Timed, period: nat, r: R.Router, es: seq<R.Event>)
    requires Begun(intent, config, r) && Timing.NoNewIntent(tes)
    requires var m := F.StartMonitor(intent.value, config.fallback.value, config, relay, start);
             && Timing.OnSchedule(m, start, tes, period) && Timing.OnSchedule(m, start, tes + [te], period)
             && te.at - Timing.LastVideo(start, tes) > Timing.Darkness(m, tes, period) + period
    requires R.Stays(r, es) && Selections(es) == Routes(F.Observe(s0, intent, config, relay, start), tes)
    ensures var now := R.Run(r, es);
            var fallback := config.fallback.value;
            && now.phase.Forwarding? && now.watched == Some(fallback)
            && (now.unseen ==>
                  R.Step(now, R.SourceChanged(true)).phase
                  == R.Forwarding(now.phase.seg.(pending := Some(R.Pending(fallback, true)))))
            && (!now.unseen && now.phase.seg.pending.Some? ==> now.phase.seg.pending.value.source == fallback)
            && (forall e | !now.unseen && Switching.IsSplice(now, e) ::
                  var after := R.Step(now, e).log;
                  && after != [] && after[|after| - 1].source == fallback
                  && after[|after| - 1].tag == Rewritten(e.tag, now.outputTs))
  {
    hide R.Stays, Timing.OnSchedule, Timing.Darkness, Timing.LastVideo, R.Run, F.Run, R.Injected;
    var s := F.Observe(s0, intent, config, relay, start);
    Timing.RoutedByDarkness(s0, intent, config, relay, start, tes, te, period);
    WatchHoldsRouted(s, tes, r, es);
    Switching.SourceStays(r, es);
    Switching.PendingIsLastOther(r, es);
    Switching.LastObservedIsOther(r, es, r.phase.seg.source);
    Switching.ReadIsLatest(r, es);
    ChangedIsRead(r, es);
    var now := R.Run(r, es);
    forall e | !now.unseen && Switching.IsSplice(now, e)
      ensures var after := R.Step(now, e).log;
              && after != [] && after[|after| - 1].source == config.fallback.value
              && after[|after| - 1].tag == Rewritten(e.tag, now.outputTs)
    {
      Switching.SplicePublishes(now, e);
    }
  }
}
