/** The failover supervisor: it mirrors the operator's selection to the routed source, substitutes the fallback while
  * the selected source is dark, and restores it once it has been producing video again. Instants and durations are
  * nanoseconds; one branch of the event loop reads the clock once. */
module Failover {
  import opened Wrappers
  import opened Flv
  import opened TagReader

  type Time = nat

  const MS := 1_000_000
  const STARTUP_GRACE := 5000 * MS
  const RECOVERY_GAP := 750 * MS
  const LEAST_GRACE_MS := 250

  datatype Config = Config(enabled: bool, fallback: Option<SourceId>, offlineGraceMs: nat, recoveryGraceMs: nat)

  function Max(a: nat, b: nat): nat { if a < b then b else a }

  function Min(a: nat, b: nat): nat { if a < b then a else b }

  /** The variables of one monitoring run. */
  datatype Monitor = Monitor(
    intended: SourceId, fallback: SourceId, offline: nat, recovery: nat,
    subscribed: bool, lastVideo: Time, recoveringSince: Option<Time>, showingFallback: bool, everLive: bool)

  datatype Phase = Passthrough | Monitoring(m: Monitor) | Done

  /** `intent` and `config` are the ones last observed; `notices` are the changes announced to clients. */
  datatype Supervisor = Supervisor(
    phase: Phase, intent: Option<SourceId>, config: Config,
    routed: Option<SourceId>, failoverActive: bool, notices: seq<bool>)

  datatype Event =
    | IntentChanged(intent: Option<SourceId>, config: Config, relay: bool)
    | IntentClosed(config: Config, relay: bool)
    | Received(tag: Tag)
    | Lagged
    | RelayClosed
    | Tick(relay: bool)

  datatype Timed = Timed(event: Event, at: Time)

  // ---------- the transition function ----------

  function StartMonitor(intended: SourceId, fallback: SourceId, config: Config, relay: bool, now: Time): Monitor {
    Monitor(intended, fallback,
            Max(config.offlineGraceMs, LEAST_GRACE_MS) * MS, Max(config.recoveryGraceMs, LEAST_GRACE_MS) * MS,
            relay, now, None, false, false)
  }

  function Threshold(m: Monitor): nat {
    if m.everLive then m.offline else Max(m.offline, STARTUP_GRACE)
  }

  predicate FailsOver(m: Monitor, now: Time) {
    !m.showingFallback && now - m.lastVideo > Threshold(m)
  }

  predicate Restores(m: Monitor, now: Time) {
    && m.showingFallback && now - m.lastVideo <= RECOVERY_GAP
    && m.recoveringSince.Some? && now - m.recoveringSince.value > m.recovery
  }

  function MonitorStep(m: Monitor, te: Timed): Monitor {
    match te.event
    case Received(tag) =>
      if m.subscribed && IsVideo(tag) then
        m.(lastVideo := te.at, everLive := true,
           recoveringSince := if m.showingFallback && m.recoveringSince.None? then Some(te.at) else m.recoveringSince)
      else m
    case RelayClosed => m.(subscribed := false)
    case Tick(relay) =>
      var m := m.(subscribed := m.subscribed || relay);
      if FailsOver(m, te.at) then m.(showingFallback := true, recoveringSince := None)
      else if m.showingFallback && te.at - m.lastVideo > RECOVERY_GAP then m.(recoveringSince := None)
      else if Restores(m, te.at) then m.(showingFallback := false, recoveringSince := None)
      else m
    case _ => m
  }

  function SetFailover(s: Supervisor, active: bool): Supervisor {
    s.(failoverActive := active, notices := if s.failoverActive != active then s.notices + [active] else s.notices)
  }

  predicate MirrorsIntent(intent: Option<SourceId>, config: Config) {
    !config.enabled || config.fallback.None? || intent.None? || config.fallback == intent
  }

  /** One pass from the top of the supervisor's loop to its next wait. */
  function Observe(s: Supervisor, intent: Option<SourceId>, config: Config, relay: bool, now: Time): Supervisor {
    var s := s.(intent := intent, config := config, routed := intent);
    if MirrorsIntent(intent, config) then SetFailover(s, false).(phase := Passthrough)
    else
      var m := StartMonitor(intent.value, config.fallback.value, config, relay, now);
      SetFailover(s, false).(phase := Monitoring(m))
  }

  function Step(s: Supervisor, te: Timed): Supervisor {
    match s.phase
    case Passthrough =>
      (match te.event
       case IntentChanged(intent, config, relay) => Observe(s, intent, config, relay, te.at)
       case IntentClosed(_, _) => s.(phase := Done)
       case _ => s)
    case Monitoring(m) =>
      (match te.event
       case IntentChanged(intent, config, relay) => Observe(s, intent, config, relay, te.at)
       case IntentClosed(config, relay) => Observe(s, s.intent, config, relay, te.at)
       case _ =>
         var m' := MonitorStep(m, te);
         var s := s.(phase := Monitoring(m'));
         if m'.showingFallback == m.showingFallback then s
         else
           var routed := Some(if m'.showingFallback then m.fallback else m.intended);
           SetFailover(s.(routed := routed), m'.showingFallback))
    case Done => s
  }

  /** Nothing is routed before the first pass. */
  function Begin(intent: Option<SourceId>, config: Config, relay: bool, now: Time): Supervisor {
    Observe(Supervisor(Passthrough, None, config, None, false, []), intent, config, relay, now)
  }

  function Run(s: Supervisor, tes: seq<Timed>): Supervisor {
    if tes == [] then s else Step(Run(s, tes[..|tes| - 1]), tes[|tes| - 1])
  }

  // ---------- consistency ----------

  ghost predicate Consistent(s: Supervisor) {
    && (!s.failoverActive ==> s.routed == s.intent)
    && (s.failoverActive ==>
          && s.config.enabled && s.config.fallback.Some? && s.intent.Some?
          && s.config.fallback != s.intent && s.routed == s.config.fallback)
  }

  ghost predicate PhaseOk(s: Supervisor) {
    match s.phase
    case Monitoring(m) =>
      && s.config.enabled && s.intent == Some(m.intended) && s.config.fallback == Some(m.fallback)
            && m.intended != m.fallback
      && s.failoverActive == m.showingFallback
      && m.recovery >= LEAST_GRACE_MS * MS && m.offline >= LEAST_GRACE_MS * MS
    case Passthrough =>
      !s.failoverActive && !(s.config.enabled && s.config.fallback.Some? && s.intent.Some?
          && s.config.fallback != s.intent)
    case Done => !s.failoverActive
  }

  /** Clients hear true and false in turn, beginning with true. */
  ghost predicate Alternates(notices: seq<bool>, active: bool) {
    && (forall i | 0 <= i < |notices| :: notices[i] == (i % 2 == 0))
    && (active <==> |notices| % 2 == 1)
  }

  lemma SetFailoverKeeps(s: Supervisor, active: bool)
    requires Alternates(s.notices, s.failoverActive)
    ensures var t := SetFailover(s, active); Alternates(t.notices, t.failoverActive) && t.failoverActive == active
  {
  }

  lemma ObserveKeeps(s: Supervisor, intent: Option<SourceId>, config: Config, relay: bool, now: Time)
    requires Alternates(s.notices, s.failoverActive)
    ensures var t := Observe(s, intent, config, relay, now);
            Consistent(t) && PhaseOk(t) && Alternates(t.notices, t.failoverActive)
  {
    hide Alternates;
    SetFailoverKeeps(s.(intent := intent, config := config, routed := intent), false);
  }

  lemma StepKeeps(s: Supervisor, te: Timed)
    requires Consistent(s) && PhaseOk(s) && Alternates(s.notices, s.failoverActive)
    ensures var t := Step(s, te); Consistent(t) && PhaseOk(t) && Alternates(t.notices, t.failoverActive)
  {
    hide Alternates, Observe, MonitorStep;
    match (s.phase, te.event) {
      case (Passthrough, IntentChanged(intent, config, relay)) => ObserveKeeps(s, intent, config, relay, te.at);
      case (Monitoring(m), IntentChanged(intent, config, relay)) => ObserveKeeps(s, intent, config, relay, te.at);
      case (Monitoring(m), IntentClosed(config, relay)) => ObserveKeeps(s, s.intent, config, relay, te.at);
      case (Monitoring(m), _) =>
        MonitorKeepsConstants(m, te);
        var showing := MonitorStep(m, te).showingFallback;
        var routed := Some(if showing then m.fallback else m.intended);
        SetFailoverKeeps(s.(phase := Monitoring(MonitorStep(m, te)), routed := routed), showing);
      case (_, _) =>
    }
  }

  lemma MonitorKeepsConstants(m: Monitor, te: Timed)
    ensures var t := MonitorStep(m, te);
            t.intended == m.intended && t.fallback == m.fallback && t.offline == m.offline && t.recovery == m.recovery
  {
  }

  /** Whenever the supervisor waits, the routed source is the observed selection unless failover is active; then it is
    * the fallback, failover is enabled and the fallback differs from the selection. */
  lemma {:induction false} RoutedConsistently(intent: Option<SourceId>, config: Config, relay: bool, now: Time,
      tes: seq<Timed>)
    ensures var s := Run(Begin(intent, config, relay, now), tes);
            Consistent(s) && PhaseOk(s) && Alternates(s.notices, s.failoverActive)
  {
    hide Consistent, PhaseOk, Step, Observe;
    if tes == [] {
      ObserveKeeps(Supervisor(Passthrough, None, config, None, false, []), intent, config, relay, now);
    } else {
      RoutedConsistently(intent, config, relay, now, tes[..|tes| - 1]);
      StepKeeps(Run(Begin(intent, config, relay, now), tes[..|tes| - 1]), tes[|tes| - 1]);
    }
  }

  /** The selection last made and the configuration last loaded, told from the events. */
  function LastIntent(intent: Option<SourceId>, tes: seq<Timed>): Option<SourceId> {
    if tes == [] then intent
    else if tes[|tes| - 1].event.IntentChanged? then tes[|tes| - 1].event.intent
    else LastIntent(intent, tes[..|tes| - 1])
  }

  function LastConfig(config: Config, tes: seq<Timed>): Config {
    if tes == [] then config
    else if tes[|tes| - 1].event.IntentChanged? then tes[|tes| - 1].event.config
    else LastConfig(config, tes[..|tes| - 1])
  }

  lemma ObservedStep(s: Supervisor, te: Timed)
    requires !s.phase.Done? && !te.event.IntentClosed?
    ensures !Step(s, te).phase.Done?
    ensures Step(s, te).intent == if te.event.IntentChanged? then te.event.intent else s.intent
    ensures Step(s, te).config == if te.event.IntentChanged? then te.event.config else s.config
  {
    hide MonitorStep;
  }

  /** Until the selection's channel closes, the supervisor goes by the selection last made and the configuration loaded
    * with it, and it monitors exactly when that configuration enables failover to another source than the selection. */
  lemma {:induction false} GoesByLastIntent(intent: Option<SourceId>, config: Config, relay: bool, now: Time,
                                            tes: seq<Timed>)
    requires forall i | 0 <= i < |tes| :: !tes[i].event.IntentClosed?
    ensures var s := Run(Begin(intent, config, relay, now), tes);
            && s.intent == LastIntent(intent, tes) && s.config == LastConfig(config, tes) && !s.phase.Done?
            && (s.phase.Monitoring? <==>
                  s.config.enabled && s.config.fallback.Some? && s.intent.Some? && s.config.fallback != s.intent)
  {
    hide Step, Alternates;
    RoutedConsistently(intent, config, relay, now, tes);
    if tes != [] {
      GoesByLastIntent(intent, config, relay, now, tes[..|tes| - 1]);
      ObservedStep(Run(Begin(intent, config, relay, now), tes[..|tes| - 1]), tes[|tes| - 1]);
    }
  }

  /** When the selection's channel closes, a supervisor that mirrors ends and changes nothing ever after; one that
    * monitors takes up its selection anew, and ends if it then mirrors. */
  lemma ClosedSelectionEnds(s: Supervisor, te: Timed, tes: seq<Timed>)
    requires te.event.IntentClosed?
    ensures s.phase.Passthrough? ==> Step(s, te) == s.(phase := Done)
    ensures s.phase.Monitoring? ==>
              Step(s, te) == Step(s, Timed(IntentChanged(s.intent, te.event.config, te.event.relay), te.at))
    ensures s.phase.Done? ==> Run(s, tes) == s
  {
    if s.phase.Done? {
      DoneStays(s, tes);
    }
  }

  lemma {:induction false} DoneStays(s: Supervisor, tes: seq<Timed>)
    requires s.phase.Done?
    ensures Run(s, tes) == s
  {
    if tes != [] {
      DoneStays(s, tes[..|tes| - 1]);
    }
  }

  // ---------- the imperative supervisor ----------

  /** The supervisor task: the watch channels it writes and the variables of the current monitoring run. */
  class SupervisorTask {
    var phase: Phase
    var intent: Option<SourceId>
    var config: Config
    var programSource: Option<SourceId>
    var failoverActive: bool
    var notices: seq<bool>
    // the current monitoring run
    var subscribed: bool
    var lastVideo: Time
    var recoveringSince: Option<Time>
    var showingFallback: bool
    var everLive: bool

    /** While monitoring, `phase` keeps the constants of the run; the variables are in the fields. */
    function Variables(): Monitor
      requires phase.Monitoring?
      reads this
    {
      phase.m.(subscribed := subscribed, lastVideo := lastVideo, recoveringSince := recoveringSince,
               showingFallback := showingFallback, everLive := everLive)
    }

    function State(): Supervisor
      reads this
    {
      var phase := if phase.Monitoring? then Monitoring(Variables()) else phase;
      Supervisor(phase, intent, config, programSource, failoverActive, notices)
    }

    constructor (config: Config)
      ensures State() == Supervisor(Passthrough, None, config, None, false, [])
    {
      phase, intent, this.config, programSource, failoverActive, notices := Passthrough, None, config, None, false, [];
      subscribed, lastVideo, recoveringSince, showingFallback, everLive := false, 0, None, false, false;
    }

    method Route(source: Option<SourceId>)
      modifies this`programSource
      ensures programSource == source
    {
      programSource := source;
    }

    method Announce(active: bool)
      modifies this`failoverActive, this`notices
      ensures State() == SetFailover(old(State()), active)
    {
      var changed := failoverActive != active;
      failoverActive := active;
      if changed {
        notices := notices + [active];
      }
    }

    method ObserveIntent(newIntent: Option<SourceId>, cfg: Config, relay: bool, now: Time)
      modifies this
      ensures State() == Observe(old(State()), newIntent, cfg, relay, now)
    {
      intent, config := newIntent, cfg;
      if !cfg.enabled || cfg.fallback.None? || newIntent.None? || cfg.fallback == newIntent {
        Announce(false);
        Route(newIntent);
        phase := Passthrough;
        return;
      }
      phase := Monitoring(StartMonitor(newIntent.value, cfg.fallback.value, cfg, relay, now));
      subscribed := relay;
      lastVideo := now;
      recoveringSince := None;
      showingFallback := false;
      everLive := false;
      Route(newIntent);
      Announce(false);
    }

    method OnReceived(tag: Tag, now: Time)
      requires phase.Monitoring? && subscribed
      modifies this`lastVideo, this`everLive, this`recoveringSince
      ensures Variables() == MonitorStep(old(Variables()), Timed(Received(tag), now))
    {
      if IsVideo(tag) {
        lastVideo := now;
        everLive := true;
        if showingFallback && recoveringSince.None? {
          recoveringSince := Some(now);
        }
      }
    }

    method OnTick(relay: bool, now: Time)
      requires phase.Monitoring?
      modifies this
      ensures phase.Monitoring? && State() == Step(old(State()), Timed(Tick(relay), now))
    {
      if !subscribed && relay {
        subscribed := true;
      }
      var darkFor := now - lastVideo;
      var threshold := if everLive then phase.m.offline else Max(phase.m.offline, STARTUP_GRACE);
      if !showingFallback && darkFor > threshold {
        Route(Some(phase.m.fallback));
        showingFallback := true;
        recoveringSince := None;
        Announce(true);
      } else if showingFallback {
        if darkFor > RECOVERY_GAP {
          recoveringSince := None;
        } else if recoveringSince.Some? {
          if now - recoveringSince.value > phase.m.recovery {
            Route(Some(phase.m.intended));
            showingFallback := false;
            recoveringSince := None;
            Announce(false);
          }
        }
      }
    }

    method OnEvent(te: Timed)
      modifies this
      ensures State() == Step(old(State()), te)
    {
      match te.event {
        case IntentChanged(newIntent, cfg, relay) =>
          if !phase.Done? {
            ObserveIntent(newIntent, cfg, relay, te.at);
          }
        case IntentClosed(cfg, relay) =>
          if phase.Monitoring? {
            ObserveIntent(intent, cfg, relay, te.at);
          } else {
            phase := Done;
          }
        case Received(tag) =>
          if phase.Monitoring? && subscribed {
            OnReceived(tag, te.at);
          }
        case Lagged =>
        case RelayClosed =>
          if phase.Monitoring? {
            subscribed := false;
          }
        case Tick(relay) =>
          if phase.Monitoring? {
            OnTick(relay, te.at);
          }
      }
    }

    method RunFailoverSupervisor(firstIntent: Option<SourceId>, cfg: Config, relay: bool, now: Time, events: seq<Timed>)
      requires State() == Supervisor(Passthrough, None, cfg, None, false, [])
      modifies this
      ensures State() == Run(Begin(firstIntent, cfg, relay, now), events)
    {
      ObserveIntent(firstIntent, cfg, relay, now);
      ghost var begun := State();
      for i := 0 to |events|
        invariant State() == Run(begun, events[..i])
      {
        OnEvent(events[i]);
        assert events[..i + 1][..i] == events[..i];
      }
      assert events[..|events|] == events;
    }
  }
}
