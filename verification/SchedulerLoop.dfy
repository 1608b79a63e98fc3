/** The scheduler loop as it works on the table, statement by statement, while requests edit the table in between. */
module SchedulerLoop {
  import opened Wrappers
  import opened Scheduler

  // ---------- next runs ----------

  /** The cron crate's next occurrence in some timezone: strictly later than the instant asked about. */
  type CronAfter = f: (string, Time) -> Option<Time> |
    forall expr, t :: f(expr, t).Some? ==> f(expr, t).value > t
    witness (expr: string, t: Time) => None

  /** A timezone: what a local date and time denotes, if it parses and is unambiguous there, and when cron
    * expressions fire. */
  datatype Zone = Zone(instantOf: string -> Option<Time>, cronAfter: CronAfter)

  function NextRunAfter(trigger: Trigger, zone: Zone, after: Time): Option<Time> {
    match trigger
    case Once(at) =>
      var utc := zone.instantOf(at);
      if utc.Some? && utc.value > after then utc else None
    case Cron(expr) => zone.cronAfter(expr, after)
  }

  /** The next run is strictly later, and a one-off has one run: it is the next until it has come, and never again. */
  lemma NextRunIsLater(trigger: Trigger, zone: Zone, after: Time, later: Time)
    requires after <= later
    ensures var n := NextRunAfter(trigger, zone, after); n.Some? ==> n.value > after
    ensures trigger.Once? ==>
              var n := NextRunAfter(trigger, zone, after);
              NextRunAfter(trigger, zone, later) == if n.Some? && n.value > later then n else None
    ensures trigger.Once? && zone.instantOf(trigger.at).Some? && zone.instantOf(trigger.at).value > after ==>
              NextRunAfter(trigger, zone, after) == zone.instantOf(trigger.at)
    ensures trigger.Once? && zone.instantOf(trigger.at).None? ==> NextRunAfter(trigger, zone, after) == None
    ensures trigger.Cron? ==> NextRunAfter(trigger, zone, after) == zone.cronAfter(trigger.expr, after)
  {
  }

  // ---------- the requests ----------

  datatype Edit =
    | Create(id: Id, enabled: bool, trigger: Trigger)
    | Update(id: Id, enabled: bool, trigger: Trigger)
    | Remove(id: Id)
    | SetZone(zone: Zone)
    | RecomputeRow(id: Id, trigger: Trigger)

  /** What happens before a statement: edits land, the clock moves on, and a broadcast is live or not. */
  datatype Turn = Turn(edits: seq<Edit>, reading: Time, live: bool)

  /** What one pass of the loop meets, from its first statement to the next waking. */
  datatype Cycle = Cycle(backfills: seq<Turn>, handlings: seq<Turn>, last: Turn, sleeping: Turn)

  function TurnAt(turns: seq<Turn>, i: nat): Turn { if i < |turns| then turns[i] else Turn([], 0, false) }

  /** The table after an edit; a written row gets the given edition. */
  function Edited(rows: map<Id, Row>, edit: Edit, zone: Zone, now: Time, edition: nat): map<Id, Row> {
    match edit
    case Create(id, enabled, trigger) =>
      if id in rows then rows else rows[id := Row(enabled, trigger, NextRunAfter(trigger, zone, now), edition)]
    case Update(id, enabled, trigger) =>
      if id in rows then rows[id := Row(enabled, trigger, NextRunAfter(trigger, zone, now), edition)] else rows
    case Remove(id) => rows - {id}
    case SetZone(_) => rows
    case RecomputeRow(id, trigger) => SetNext(rows, id, NextRunAfter(trigger, zone, now))
  }

  /** An edit writes the row it names, as it says, and no other. */
  lemma EditWrites(rows: map<Id, Row>, edit: Edit, zone: Zone, now: Time, edition: nat, other: Id)
    ensures var after := Edited(rows, edit, zone, now, edition);
            match edit
            case Create(id, enabled, trigger) =>
              && (id in rows ==> after == rows) && (other != id ==> SameRow(rows, after, other))
              && (id !in rows ==> Written(after, id, enabled, trigger, zone, now, edition))
            case Update(id, enabled, trigger) =>
              && (id !in rows ==> after == rows) && (other != id ==> SameRow(rows, after, other))
              && (id in rows ==> Written(after, id, enabled, trigger, zone, now, edition))
            case Remove(id) => id !in after && (other != id ==> SameRow(rows, after, other))
            case SetZone(_) => after == rows
            case RecomputeRow(id, trigger) =>
              && (id in after <==> id in rows) && (other != id ==> SameRow(rows, after, other))
              && (id in rows ==>
                    && after[id].enabled == rows[id].enabled && after[id].trigger == rows[id].trigger
                    && after[id].edition == rows[id].edition && NextOk(after[id].next, trigger, zone, now))
  {
  }

  predicate SameRow(rows: map<Id, Row>, after: map<Id, Row>, id: Id) {
    (id in after <==> id in rows) && (id in rows ==> after[id] == rows[id])
  }

  predicate Written(rows: map<Id, Row>, id: Id, enabled: bool, trigger: Trigger, zone: Zone, now: Time, edition: nat) {
    && id in rows && rows[id].enabled == enabled && rows[id].trigger == trigger && rows[id].edition == edition
    && NextOk(rows[id].next, trigger, zone, now)
  }

  /** The next run of a trigger: the instant of a one-off if that is still to come, what cron says otherwise. */
  predicate NextOk(next: Option<Time>, trigger: Trigger, zone: Zone, now: Time) {
    match trigger
    case Once(at) =>
      && (next.Some? ==> next == zone.instantOf(at) && next.value > now)
      && (next.None? ==> zone.instantOf(at) == None || zone.instantOf(at).value <= now)
    case Cron(expr) => next == zone.cronAfter(expr, now)
  }

  lemma RunExtends(tes: seq<Timed>, te: Timed)
    ensures Run(tes + [te]) == Step(Run(tes), te)
    ensures RunOk(tes + [te]) <==> RunOk(tes) && EventOk(Run(tes), te)
  {
    assert (tes + [te])[..|tes|] == tes;
  }

  ghost predicate Quiet(turns: seq<Turn>) { forall i :: TurnAt(turns, i).edits == [] }

  /** Of the rows, only those that were enabled and unscheduled have changed. */
  ghost predicate OnlyBackfills(before: map<Id, Row>, after: map<Id, Row>) {
    && before.Keys == after.Keys
    && forall id | id in before :: after[id].trigger == before[id].trigger
          && (!Unscheduled(before[id]) ==> after[id] == before[id])
  }

  /** The rows listed are scheduled or off now, unless they are recurring. */
  ghost predicate Settled(after: map<Id, Row>, found: seq<Backlog>) {
    forall i | 0 <= i < |found| ::
      found[i].id in after && Unscheduled(after[found[i].id]) ==> after[found[i].id].trigger.Cron?
  }

  /** The scheduler stands where it stood: what it has read and not yet worked off is the same. */
  predicate SameWork(s: State, t: State) {
    t.backlog == s.backlog && t.todo == s.todo && t.advancing == s.advancing && t.lastQuery == s.lastQuery
  }

  lemma ScheduleSettles(before: map<Id, Row>, rows: map<Id, Row>, found: seq<Backlog>, b: Backlog, next: Option<Time>)
    requires OnlyBackfills(before, rows) && Settled(rows, found)
    requires b.id in before && Unscheduled(before[b.id]) && b.trigger == before[b.id].trigger
    ensures var after := Scheduled(rows, b.id, b.trigger, next);
            OnlyBackfills(before, after) && Settled(after, found + [b])
  {
  }

  class SchedulerTask {
    var rows: map<Id, Row>
    var zone: Zone
    var clock: Time
    var editions: nat
    var log: seq<Handled>

    /** Everything the scheduler and the requests have done to the table so far. */
    ghost var trace: seq<Timed>

    ghost predicate Valid()
      reads this
    {
      && RunOk(trace)
      && Run(trace).rows == rows && Run(trace).editions == editions && Run(trace).log == log
            && Run(trace).clock <= clock
    }

    ghost predicate Idle()
      reads this
    {
      Run(trace).backlog == [] && Run(trace).todo == [] && Run(trace).advancing.None?
    }

    constructor (zone: Zone)
      ensures Valid() && Idle() && trace == [] && log == []
    {
      rows, this.zone, clock, editions, log, trace := map[], zone, 0, 0, [], [];
    }

    ghost method Record(event: Event)
      requires RunOk(trace) && Run(trace).clock <= clock
      requires NextOf(event).Some? ==> NextOf(event).value > clock
      modifies this`trace
      ensures RunOk(trace) && trace == old(trace) + [Timed(event, clock)]
      ensures Run(trace) == Step(Run(old(trace)), Timed(event, clock))
    {
      RunExtends(trace, Timed(event, clock));
      trace := trace + [Timed(event, clock)];
    }

    /** The clock never runs back. */
    method ReadClock(reading: Time)
      modifies this`clock
      ensures clock >= old(clock) && clock >= reading
    {
      if reading > clock {
        clock := reading;
      }
    }

    method Apply(edit: Edit)
      requires Valid()
      modifies this
      ensures Valid() && clock == old(clock) && log == old(log)
      ensures rows == Edited(old(rows), edit, zone, clock, old(editions) + 1)
      ensures zone == if edit.SetZone? then edit.zone else old(zone)
      ensures old(trace) <= trace
      ensures SameWork(Run(old(trace)), Run(trace))
    {
      hide Run, RunOk, ListsDue, IsSoonest, AdvanceRow;
      match edit
      case Create(id, enabled, trigger) =>
        if id !in rows {
          Write(id, enabled, trigger);
        }
      case Update(id, enabled, trigger) =>
        if id in rows {
          Write(id, enabled, trigger);
        }
      case Remove(id) =>
        rows := rows - {id};
        Record(Event.Delete(id));
      case SetZone(z) =>
        zone := z;
      case RecomputeRow(id, trigger) =>
        var next := NextRunAfter(trigger, zone, clock);
        NextRunIsLater(trigger, zone, clock, clock);
        rows := SetNext(rows, id, next);
        Record(Event.Recompute(id, next));
    }

    method Write(id: Id, enabled: bool, trigger: Trigger)
      requires Valid()
      modifies this
      ensures Valid() && clock == old(clock) && log == old(log) && zone == old(zone)
      ensures old(trace) <= trace
      ensures SameWork(Run(old(trace)), Run(trace))
      ensures rows == old(rows)[id := Row(enabled, trigger, NextRunAfter(trigger, zone, clock), editions)]
          && editions == old(editions) + 1
    {
      hide Run, RunOk, ListsDue, IsSoonest, AdvanceRow;
      var next := NextRunAfter(trigger, zone, clock);
      NextRunIsLater(trigger, zone, clock, clock);
      editions := editions + 1;
      rows := rows[id := Row(enabled, trigger, next, editions)];
      Record(Event.Write(id, enabled, trigger, next));
    }

    method Pass(turn: Turn)
      requires Valid()
      modifies this
      ensures Valid() && clock >= old(clock) && log == old(log)
      ensures old(trace) <= trace
      ensures SameWork(Run(old(trace)), Run(trace))
      ensures turn.edits == [] ==> rows == old(rows)
    {
      for i := 0 to |turn.edits|
        invariant Valid() && clock == old(clock) && log == old(log)
        invariant old(trace) <= trace
        invariant SameWork(Run(old(trace)), Run(trace))
        invariant i == 0 ==> rows == old(rows)
      {
        Apply(turn.edits[i]);
      }
      ReadClock(turn.reading);
    }

    // ---------- queries ----------

    /** Rows are listed in whatever order the database finds them. */
    method SelectUnscheduled() returns (order: seq<Id>)
      ensures ListsUnscheduled(rows, order)
    {
      order := [];
      var rest := rows.Keys;
      while rest != {}
        invariant rest <= rows.Keys
        invariant forall i | 0 <= i < |order| :: order[i] in rows && Unscheduled(rows[order[i]])
        invariant forall id | id in rows && Unscheduled(rows[id]) :: id in order || id in rest
        decreases |rest|
      {
        var id :| id in rest;
        rest := rest - {id};
        if Unscheduled(rows[id]) {
          order := order + [id];
        }
      }
    }

    method DueSchedules(now: Time) returns (order: seq<Id>)
      ensures ListsDue(rows, order, now)
    {
      order := [];
      var rest := rows.Keys;
      while rest != {}
        invariant rest <= rows.Keys
        invariant forall i | 0 <= i < |order| :: order[i] in rows && order[i] !in rest && IsDue(rows[order[i]], now)
        invariant forall i, j | 0 <= i < j < |order| :: order[i] != order[j]
        invariant forall id | id in rows && IsDue(rows[id], now) :: id in order || id in rest
        decreases |rest|
      {
        var id :| id in rest;
        rest := rest - {id};
        if IsDue(rows[id], now) {
          order := order + [id];
        }
      }
    }

    method SoonestNextRun() returns (soonest: Option<Time>)
      ensures IsSoonest(rows, soonest)
    {
      soonest := None;
      var rest := rows.Keys;
      while rest != {}
        invariant rest <= rows.Keys
        invariant forall id | id in rows && id !in rest && rows[id].enabled && rows[id].next.Some? ::
            soonest.Some? && soonest.value <= rows[id].next.value
        invariant soonest.Some? ==> exists id | id in rows :: rows[id].enabled && rows[id].next == soonest
        decreases |rest|
      {
        var id :| id in rest;
        rest := rest - {id};
        var row := rows[id];
        if row.enabled && row.next.Some? && (soonest.None? || row.next.value < soonest.value) {
          soonest := row.next;
        }
      }
    }

    // ---------- an iteration ----------

    /** Reads the rows to backfill; from here on the list may go stale. */
    method Scan() returns (found: seq<Backlog>)
      requires Valid() && Idle()
      modifies this`trace
      ensures Valid() && old(trace) <= trace
      ensures Run(trace).backlog == found && Run(trace).todo == [] && Run(trace).advancing.None?
      ensures forall i | 0 <= i < |found| :: found[i].id in rows && found[i].trigger == rows[found[i].id].trigger
      ensures forall i | 0 <= i < |found| :: found[i].id in rows && Unscheduled(rows[found[i].id])
      ensures forall id | id in rows && Unscheduled(rows[id]) :: exists i | 0 <= i < |found| :: found[i].id == id
    {
      var order := SelectUnscheduled();
      found := Backlogs(rows, order);
      Record(Event.Scan(order));
      forall id | id in rows && Unscheduled(rows[id]) ensures exists i | 0 <= i < |found| :: found[i].id == id {
        var i :| 0 <= i < |order| && order[i] == id;
        assert found[i].id == id;
      }
    }

    /** Gives every enabled row without one its next run, and switches off one-offs that have none. */
    method EnsureNextRuns(turns: seq<Turn>)
      requires Valid() && Idle()
      modifies this
      ensures Valid() && Idle() && old(trace) <= trace && clock >= old(clock) && log == old(log)
      ensures Quiet(turns) ==> OnlyBackfills(old(rows), rows)
      ensures Quiet(turns) ==> forall id | id in rows && Unscheduled(rows[id]) :: rows[id].trigger.Cron?
    {
      hide Valid, Step;
      var tz := zone;
      ghost var before := rows;
      var found := Scan();
      for i := 0 to |found|
        invariant Valid() && old(trace) <= trace && clock >= old(clock) && log == old(log)
        invariant Run(trace).backlog == found[i..] && Run(trace).todo == [] && Run(trace).advancing.None?
        invariant Quiet(turns) ==> OnlyBackfills(before, rows) && Settled(rows, found[..i])
      {
        ghost var current := rows;
        Pass(TurnAt(turns, i));
        Schedule(found[i], tz);
        if Quiet(turns) {
          ScheduleSettles(before, current, found[..i], found[i], NextRunAfter(found[i].trigger, tz, clock));
        }
        assert found[..i + 1] == found[..i] + [found[i]];
      }
      assert found[..|found|] == found;
    }

    method Schedule(b: Backlog, tz: Zone)
      requires Valid() && Run(trace).backlog != [] && Run(trace).backlog[0] == b
      modifies this
      ensures Valid() && old(trace) <= trace && clock == old(clock) && log == old(log)
      ensures Run(trace).backlog == Run(old(trace)).backlog[1..]
      ensures Run(trace).todo == Run(old(trace)).todo && Run(trace).advancing == Run(old(trace)).advancing
      ensures rows == Scheduled(old(rows), b.id, b.trigger, NextRunAfter(b.trigger, tz, clock))
    {
      var next := NextRunAfter(b.trigger, tz, clock);
      NextRunIsLater(b.trigger, tz, clock, clock);
      if next.Some? {
        rows := SetNext(rows, b.id, next);
      } else if b.trigger.Once? {
        rows := Disable(rows, b.id);
      }
      Record(Event.Backfill(next));
    }

    /** Handles the listed row, live broadcast or not, then moves its schedule past it. */
    method HandleDue(due: Due, queriedAt: Time, turn: Turn)
      requires Valid() && Run(trace).advancing.None? && Run(trace).lastQuery == Some(queriedAt)
      requires Run(trace).todo != [] && Run(trace).todo[0] == due
      modifies this
      ensures Valid() && Run(trace).advancing.None? && old(trace) <= trace && clock >= old(clock)
      ensures Run(trace).todo == Run(old(trace)).todo[1..] && Run(trace).lastQuery == Some(queriedAt)
      ensures Run(trace).backlog == Run(old(trace)).backlog
      ensures log == old(log) + [Handled(due, queriedAt, turn.live)]
      ensures due.id in rows && due.trigger.Once? ==> !rows[due.id].enabled && rows[due.id].next.None?
      ensures due.id in rows && due.trigger.Cron? ==> rows[due.id].next == NextRunAfter(due.trigger, zone, clock)
      ensures turn.edits == [] && due.id in old(rows) ==>
                && due.id in rows && rows[due.id].trigger == old(rows)[due.id].trigger
                && rows[due.id].edition == old(rows)[due.id].edition
                && rows[due.id].enabled == (old(rows)[due.id].enabled && due.trigger.Cron?)
      ensures turn.edits == [] ==> forall id | id in old(rows) && id != due.id ::
          id in rows && rows[id] == old(rows)[id]
    {
      log := log + [Handled(due, queriedAt, turn.live)];
      Record(Event.Fire(turn.live));
      Pass(turn);
      Advance(due);
    }

    method Advance(due: Due)
      requires Valid() && Run(trace).advancing == Some(due)
      modifies this
      ensures Valid() && Run(trace).advancing.None? && old(trace) <= trace && clock == old(clock) && zone == old(zone)
          && log == old(log)
      ensures Run(trace).todo == Run(old(trace)).todo && Run(trace).lastQuery == Run(old(trace)).lastQuery
      ensures Run(trace).backlog == Run(old(trace)).backlog
      ensures rows == AdvanceRow(old(rows), due, NextRunAfter(due.trigger, zone, clock))
      ensures rows.Keys == old(rows).Keys && forall id | id in rows && id != due.id :: rows[id] == old(rows)[id]
      ensures due.id in rows ==>
                && rows[due.id].trigger == old(rows)[due.id].trigger
                && rows[due.id].edition == old(rows)[due.id].edition
                && (due.trigger.Once? ==> !rows[due.id].enabled && rows[due.id].next == None)
                && (due.trigger.Cron? ==>
                      && rows[due.id].enabled == old(rows)[due.id].enabled
                      && rows[due.id].next == zone.cronAfter(due.trigger.expr, clock))
    {
      var next: Option<Time> := None;
      match due.trigger {
        case Once(_) =>
          rows := SetNext(Disable(rows, due.id), due.id, None);
        case Cron(_) =>
          next := NextRunAfter(due.trigger, zone, clock);
          NextRunIsLater(due.trigger, zone, clock, clock);
          rows := SetNext(rows, due.id, next);
      }
      Record(Event.Advance(next));
    }

    method Query() returns (queriedAt: Time, dues: seq<Due>)
      requires Valid() && Idle()
      modifies this`trace
      ensures Valid() && old(trace) <= trace
      ensures queriedAt == clock && Run(trace).lastQuery == Some(queriedAt)
      ensures Run(trace).backlog == [] && Run(trace).todo == dues && Run(trace).advancing.None?
    {
      queriedAt := clock;
      var order := DueSchedules(queriedAt);
      dues := Dues(rows, order, queriedAt);
      Record(Event.Query(order));
    }

    /** Every row due at the query is handled, in the order listed. */
    method HandleAllDue(handlings: seq<Turn>) returns (queriedAt: Time)
      requires Valid() && Idle()
      modifies this
      ensures Valid() && Idle() && old(trace) <= trace
      ensures old(clock) <= queriedAt <= clock && Run(trace).lastQuery == Some(queriedAt)
      ensures old(log) <= log && forall i | |old(log)| <= i < |log| :: log[i].queriedAt == queriedAt
    {
      hide Valid, Step;
      var dues;
      queriedAt, dues := Query();
      for i := 0 to |dues|
        invariant Valid() && Run(trace).advancing.None? && Run(trace).lastQuery == Some(queriedAt)
        invariant Run(trace).backlog == [] && Run(trace).todo == dues[i..]
        invariant old(trace) <= trace && old(clock) <= queriedAt <= clock
        invariant old(log) <= log && forall j | |old(log)| <= j < |log| :: log[j].queriedAt == queriedAt
      {
        HandleDue(dues[i], queriedAt, TurnAt(handlings, i));
      }
    }

    /** One pass of the loop: every row due at its query is handled, none stays due, and the wait lasts until the
      * soonest run still stored. */
    method Iterate(backfills: seq<Turn>, handlings: seq<Turn>, last: Turn)
        returns (queriedAt: Time, soonest: Option<Time>, sleep: Time)
      requires Valid() && Idle()
      modifies this
      ensures Valid() && Idle() && old(trace) <= trace
      ensures old(clock) <= queriedAt <= clock && Run(trace).lastQuery == Some(queriedAt)
      ensures forall id | id in rows :: !IsDue(rows[id], queriedAt)
      ensures old(log) <= log && forall i | |old(log)| <= i < |log| :: log[i].queriedAt == queriedAt
      ensures DuesOf(log) == Listed(trace)
      ensures IsSoonest(rows, soonest) && sleep == SleepFor(soonest, clock)
    {
      hide Valid, IsDue, Step;
      EnsureNextRuns(backfills);
      queriedAt := HandleAllDue(handlings);
      Pass(last);
      soonest, sleep := Sleep();
      IterationSettles();
    }

    method Sleep() returns (soonest: Option<Time>, sleep: Time)
      requires Valid() && Idle()
      modifies this`trace
      ensures Valid() && Idle() && old(trace) <= trace && Run(trace).lastQuery == Run(old(trace)).lastQuery
      ensures IsSoonest(rows, soonest) && sleep == SleepFor(soonest, clock)
    {
      soonest := SoonestNextRun();
      sleep := SleepFor(soonest, clock);
      Record(Event.Sleep(soonest));
    }

    lemma IterationSettles()
      requires Valid() && Idle() && Run(trace).lastQuery.Some?
      ensures forall id | id in rows :: !IsDue(rows[id], Run(trace).lastQuery.value)
      ensures DuesOf(log) == Listed(trace)
    {
      NothingIsDropped(trace);
      forall id | id in rows ensures !IsDue(rows[id], Run(trace).lastQuery.value) {
        NothingStaysDue(trace, id);
      }
    }

    /** However the requests and the clock go, no occurrence of a schedule is ever handled twice. */
    method RunScheduler(cycles: seq<Cycle>)
      requires Valid() && Idle()
      modifies this
      ensures Valid() && Idle() && old(trace) <= trace
      ensures forall i, j | 0 <= i < j < |log| && log[i].due.id == log[j].due.id ::
          log[i].due.occurrence < log[j].due.occurrence
      ensures forall i, j | 0 <= i < j < |log| :: !SameOneOff(log[i].due, log[j].due)
      ensures DuesOf(log) == Listed(trace)
    {
      for i := 0 to |cycles|
        invariant Valid() && Idle() && old(trace) <= trace
      {
        var queriedAt, soonest, sleep := Iterate(cycles[i].backfills, cycles[i].handlings, cycles[i].last);
        Pass(cycles[i].sleeping);
      }
      RunKeepsInv(trace);
      NothingIsDropped(trace);
    }
  }
}
