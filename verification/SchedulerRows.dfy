/** What each statement of the scheduler and each request does to a row, told field by field; and what a recurring
  * schedule keeps over any run. */
module SchedulerRows {
  import opened Wrappers
  import opened Scheduler
  import opened SchedulerEdits

  /** The scheduler moves on the row of the listed run it has just handled, or backfills the row listed first; no other
    * statement of it writes a row. Whatever it does, the trigger and the edition stay. */
  lemma StepWritesRow(s: State, te: Timed, id: Id)
    requires id in s.rows && !Requests(te.event, id)
    ensures id in Step(s, te).rows
    ensures var row, after := s.rows[id], Step(s, te).rows[id];
            && after.trigger == row.trigger && after.edition == row.edition
            && (te.event.Advance? && s.advancing.Some? && s.advancing.value.id == id ==>
                  match s.advancing.value.trigger
                  case Once(_) => !after.enabled && after.next == None
                  case Cron(_) => after.enabled == row.enabled && after.next == te.event.next)
            && (te.event.Backfill? && s.backlog != [] && s.backlog[0].id == id ==>
                  if te.event.next != None then after.enabled == row.enabled && after.next == te.event.next
                  else after.next == row.next && after.enabled == (row.enabled && s.backlog[0].trigger.Cron?))
            && ((te.event.Advance? && s.advancing.Some? && s.advancing.value.id == id)
                || (te.event.Backfill? && s.backlog != [] && s.backlog[0].id == id)
                || after == row)
  {
    hide ListsDue, ListsUnscheduled, IsSoonest, SleepFor, Nudged;
  }

  /** The scheduler switches a row off only by work on a trigger that it read as a one-off. */
  lemma SwitchesOffOneOffs(s: State, te: Timed, id: Id)
    requires id in s.rows && s.rows[id].enabled && !Requests(te.event, id)
    ensures id in Step(s, te).rows
    ensures !Step(s, te).rows[id].enabled ==>
              || (te.event.Advance? && s.advancing.Some? && s.advancing.value.id == id
                  && s.advancing.value.trigger.Once?)
              || (te.event.Backfill? && s.backlog != [] && s.backlog[0].id == id && s.backlog[0].trigger.Once?)
  {
    hide Step;
    StepWritesRow(s, te, id);
  }

  // ---------- recurring schedules ----------

  /** Whatever has been read of the row was read as recurring. */
  ghost predicate ReadAsCron(s: State, id: Id) {
    && (forall i | 0 <= i < |s.backlog| && s.backlog[i].id == id :: s.backlog[i].trigger.Cron?)
    && (forall i | 0 <= i < |s.todo| && s.todo[i].id == id :: s.todo[i].trigger.Cron?)
    && (s.advancing.Some? && s.advancing.value.id == id ==> s.advancing.value.trigger.Cron?)
  }

  lemma StepReadsCron(s: State, te: Timed, id: Id)
    requires ReadAsCron(s, id) && !Requests(te.event, id) && (id in s.rows ==> s.rows[id].trigger.Cron?)
    ensures ReadAsCron(Step(s, te), id)
  {
    hide IsSoonest, SleepFor, Nudged;
  }

  /** A recurring schedule that nobody edits stays enabled, with its trigger, over any run, however often it is
    * handled or backfilled. */
  lemma {:induction false} RecurringStays(s: State, tes: seq<Timed>, id: Id)
    requires id in s.rows && s.rows[id].trigger.Cron? && s.rows[id].enabled && ReadAsCron(s, id)
    requires forall i | 0 <= i < |tes| :: !Requests(tes[i].event, id)
    ensures var t := RunOn(s, tes);
            && id in t.rows && t.rows[id].enabled && ReadAsCron(t, id)
            && t.rows[id].trigger == s.rows[id].trigger && t.rows[id].edition == s.rows[id].edition
    decreases |tes|
  {
    hide Step, ReadAsCron;
    if tes != [] {
      StepWritesRow(s, tes[0], id);
      SwitchesOffOneOffs(s, tes[0], id);
      StepReadsCron(s, tes[0], id);
      NoWorkOnOneOffs(s, id);
      RecurringStays(Step(s, tes[0]), tes[1..], id);
    }
  }

  lemma NoWorkOnOneOffs(s: State, id: Id)
    requires ReadAsCron(s, id)
    ensures s.advancing.Some? && s.advancing.value.id == id ==> s.advancing.value.trigger.Cron?
    ensures s.backlog != [] && s.backlog[0].id == id ==> s.backlog[0].trigger.Cron?
  {
  }

  // ---------- requests ----------

  /** A request writes the row it names, as it says, under an edition that no row and no reading has yet; nothing
    * else. */
  lemma RequestWrites(s: State, te: Timed, id: Id, other: Id)
    requires Inv(s) && Requests(te.event, id) && other != id
    ensures var t := Step(s, te);
            && (other in t.rows <==> other in s.rows) && (other in s.rows ==> t.rows[other] == s.rows[other])
            && t.backlog == s.backlog && t.todo == s.todo && t.advancing == s.advancing && t.log == s.log
            && (te.event.Write? ==>
                  && id in t.rows && t.rows[id].enabled == te.event.enabled && t.rows[id].trigger == te.event.trigger
                  && t.rows[id].next == te.event.next && t.rows[id].edition > s.editions)
            && (te.event.Delete? ==> id !in t.rows)
            && (te.event.Recompute? ==>
                  && (id in t.rows <==> id in s.rows)
                  && (id in s.rows ==>
                        && t.rows[id].enabled == s.rows[id].enabled && t.rows[id].trigger == s.rows[id].trigger
                        && t.rows[id].edition == s.rows[id].edition && t.rows[id].next == te.event.next))
  {
    hide PastOk, OrderOk, OneOffOk, SettledOk;
  }

  // ---------- what the queries read ----------

  /** The query lists exactly the enabled rows whose next run has come, each once, as they are. */
  lemma QueryReadsExactly(s: State, te: Timed, id: Id)
    requires te.event.Query? && s.backlog == [] && s.todo == [] && s.advancing == None
    requires ListsDue(s.rows, te.event.order, te.now)
    ensures var todo := Step(s, te).todo;
            && (forall i | 0 <= i < |todo| && todo[i].id == id ::
                  && id in s.rows && s.rows[id].enabled && s.rows[id].next == Some(todo[i].occurrence)
                  && todo[i].occurrence <= te.now && todo[i].trigger == s.rows[id].trigger
                  && todo[i].edition == s.rows[id].edition)
            && (id in s.rows && s.rows[id].enabled && s.rows[id].next.Some? && s.rows[id].next.value <= te.now ==>
                  exists i | 0 <= i < |todo| :: todo[i].id == id)
            && (forall i, j | 0 <= i < j < |todo| :: todo[i].id != todo[j].id)
            && Step(s, te).lastQuery == Some(te.now)
  {
    var order, todo := te.event.order, Step(s, te).todo;
    if id in s.rows && IsDue(s.rows[id], te.now) {
      var i :| 0 <= i < |order| && order[i] == id;
      assert todo[i].id == id;
    }
  }

  /** The backfill's query lists exactly the enabled rows without a next run, with the triggers they have. */
  lemma ScanReadsExactly(s: State, te: Timed, id: Id)
    requires te.event.Scan? && s.backlog == [] && s.todo == [] && s.advancing == None
    requires ListsUnscheduled(s.rows, te.event.order)
    ensures var backlog := Step(s, te).backlog;
            && (forall i | 0 <= i < |backlog| && backlog[i].id == id ::
                  && id in s.rows && s.rows[id].enabled && s.rows[id].next == None
                  && backlog[i].trigger == s.rows[id].trigger && backlog[i].edition == s.rows[id].edition)
            && (id in s.rows && s.rows[id].enabled && s.rows[id].next == None ==>
                  exists i | 0 <= i < |backlog| :: backlog[i].id == id)
  {
    var order, backlog := te.event.order, Step(s, te).backlog;
    if id in s.rows && Unscheduled(s.rows[id]) {
      var i :| 0 <= i < |order| && order[i] == id;
      assert backlog[i].id == id;
    }
  }

  /** The wait ends at the soonest run when that is between 200 ms and a minute away, and else at the nearer of
    * these; it is a minute when nothing is stored. */
  lemma SleepsUntilSoonest(soonest: Time, now: Time)
    ensures 200_000_000 <= SleepFor(Some(soonest), now) <= 60_000_000_000 && SleepFor(None, now) == 60_000_000_000
    ensures now + 200_000_000 <= soonest <= now + 60_000_000_000 ==> now + SleepFor(Some(soonest), now) == soonest
    ensures soonest < now + 200_000_000 ==> SleepFor(Some(soonest), now) == 200_000_000
    ensures soonest > now + 60_000_000_000 ==> SleepFor(Some(soonest), now) == 60_000_000_000
  {
  }

  /** Going to sleep sets the next waking: after the wait that the least next run of the enabled rows asks for. */
  lemma SleepSetsWaking(s: State, te: Timed, id: Id)
    requires te.event.Sleep? && s.backlog == [] && s.todo == [] && s.advancing == None && s.lastQuery != None
    requires s.queryBy == None && IsSoonest(s.rows, te.event.soonest)
    ensures var soonest := te.event.soonest;
            && Step(s, te).queryBy == Some(te.now + SleepFor(soonest, te.now)) && Step(s, te).rows == s.rows
            && (id in s.rows && s.rows[id].enabled && s.rows[id].next.Some? ==>
                  soonest.Some? && soonest.value <= s.rows[id].next.value)
            && (soonest.Some? ==> exists i | i in s.rows :: s.rows[i].enabled && s.rows[i].next == soonest)
  {
  }

  /** A request makes a sleeping scheduler wake at once, and never later than it would have. */
  lemma RequestsWake(s: State, te: Timed)
    requires te.event.Write? || te.event.Delete? || te.event.Recompute?
    ensures var t := Step(s, te);
            && (t.queryBy.Some? <==> s.queryBy.Some?)
            && (s.queryBy.Some? ==> t.queryBy.value <= te.now || t.queryBy == s.queryBy)
            && (s.queryBy.Some? ==> t.queryBy.value <= s.queryBy.value)
            && (s.queryBy.Some? && te.now <= s.queryBy.value ==> t.queryBy.value == te.now)
  {
  }
}
