/** How late the scheduler runs, whatever the schedules are. */
module SchedulerTiming {
  import opened Wrappers
  import opened Scheduler

  /** An iteration is on time when it queries within `work` of the deadline, and sleeps within `work` of its query. */
  ghost predicate OnTime(s: State, now: Time, work: Time) {
    if s.queryBy.Some? then now <= s.queryBy.value + work
    else s.lastQuery.Some? ==> now <= s.lastQuery.value + work
  }

  ghost predicate Timely(tes: seq<Timed>, work: Time) {
    tes != [] ==> Timely(tes[..|tes| - 1], work) && OnTime(Run(tes[..|tes| - 1]), tes[|tes| - 1].now, work)
  }

  predicate Waiting(s: State, id: Id) {
    id in s.rows && s.rows[id].enabled && s.rows[id].next.Some? && !InHand(s, id)
  }

  /** The deadline of the next query is less than 200 ms after every run that waits for it. */
  ghost predicate WakesFor(s: State, work: Time) {
    && (s.queryBy.Some? ==> s.todo == [] && s.advancing.None? && s.lastQuery.Some?)
    && (s.queryBy.Some? ==> forall id | Waiting(s, id) :: s.queryBy.value < s.rows[id].next.value + 200 * MS + work)
  }

  /** Sleeping until the soonest run, 200 ms at least, wakes in time for all of them. */
  lemma SleepWakes(s: State, te: Timed, work: Time)
    requires Inv(s) && WakesFor(s, work) && EventOk(s, te) && OnTime(s, te.now, work) && te.event.Sleep?
    ensures WakesFor(Step(s, te), work)
  {
    hide PastOk, OrderOk, OneOffOk;
    var t := Step(s, te);
    assert forall id :: InHand(t, id) == InHand(s, id);
  }

  /** An edit may bring a run forward, and the nudge brings the deadline forward with it. */
  lemma EditWakes(s: State, te: Timed, work: Time)
    requires Inv(s) && WakesFor(s, work) && EventOk(s, te)
    requires te.event.Scan? || te.event.Backfill? || te.event.Write? || te.event.Delete? || te.event.Recompute?
    ensures WakesFor(Step(s, te), work)
  {
    hide Inv;
    var t := Step(s, te);
    assert forall id :: InHand(t, id) == InHand(s, id);
  }

  lemma StepWakes(s: State, te: Timed, work: Time)
    requires Inv(s) && WakesFor(s, work) && EventOk(s, te) && OnTime(s, te.now, work)
    ensures WakesFor(Step(s, te), work)
  {
    match te.event
    case Sleep(_) => SleepWakes(s, te, work);
    case Query(order) =>
      assert forall id :: InHand(s.(clock := te.now), id) == InHand(s, id);
    case Fire(_) =>
      assert forall id :: InHand(s.(clock := te.now), id) == InHand(s, id);
    case Advance(_) =>
      assert forall id :: InHand(s.(clock := te.now), id) == InHand(s, id);
    case _ => EditWakes(s, te, work);
  }

  lemma {:induction false} RunWakes(tes: seq<Timed>, work: Time)
    requires RunOk(tes) && Timely(tes, work)
    ensures WakesFor(Run(tes), work)
  {
    if tes != [] {
      RunWakes(tes[..|tes| - 1], work);
      RunKeepsInv(tes[..|tes| - 1]);
      StepWakes(Run(tes[..|tes| - 1]), tes[|tes| - 1], work);
    }
  }

  /** After the first query, no enabled run waits 200 ms beyond its instant, plus twice the time an iteration works. */
  lemma NoRunWaitsLong(tes: seq<Timed>, te: Timed, id: Id, work: Time)
    requires RunOk(tes + [te]) && Timely(tes + [te], work)
    requires Run(tes).lastQuery.Some? && Waiting(Run(tes), id)
    ensures te.now < Run(tes).rows[id].next.value + 200 * MS + 2 * work
  {
    assert (tes + [te])[..|tes|] == tes;
    RunWakes(tes, work);
    RunKeepsInv(tes);
  }

  /** The first iteration at or after a stored occurrence queries less than 200 ms after it when iterations take no
    * time, for any set of schedules and any edits. */
  lemma ListedInTime(tes: seq<Timed>, te: Timed, work: Time, d: Due)
    requires RunOk(tes + [te]) && Timely(tes + [te], work)
    requires te.event.Query? && Run(tes).todo == [] && Run(tes).lastQuery.Some?
    requires d in Run(tes + [te]).todo
    ensures Run(tes).lastQuery.value < d.occurrence <= te.now < d.occurrence + 200 * MS + 2 * work
  {
    var s, t := Run(tes), Run(tes + [te]);
    assert (tes + [te])[..|tes|] == tes;
    var i :| 0 <= i < |t.todo| && t.todo[i] == d;
    var id := te.event.order[i];
    assert d == DueOf(id, s.rows[id]) && IsDue(s.rows[id], te.now);
    assert Waiting(s, id);
    NoRunWaitsLong(tes, te, id, work);
    RunKeepsInv(tes);
  }
}
