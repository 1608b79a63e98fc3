/** Whether an edit survives the iteration it lands in: the scheduler moves a schedule on by its id, with the trigger it
  * had read at the query. */
module SchedulerEdits {
  import opened Wrappers
  import opened Scheduler

  function RunOn(s: State, tes: seq<Timed>): State
    decreases |tes|
  {
    if tes == [] then s else RunOn(Step(s, tes[0]), tes[1..])
  }

  ghost predicate RunsOn(s: State, tes: seq<Timed>)
    decreases |tes|
  {
    tes != [] ==> EventOk(s, tes[0]) && RunsOn(Step(s, tes[0]), tes[1..])
  }

  /** Another request writes the row. */
  predicate Requests(e: Event, id: Id) {
    match e
    case Write(i, _, _, _) => i == id
    case Delete(i) => i == id
    case Recompute(i, _) => i == id
    case _ => false
  }

  /** The scheduler's work on the row as the given edition wrote it: handling its next run, or backfilling it. */
  predicate OwnWork(s: State, e: Event, id: Id, edition: nat) {
    || (e.Fire? && s.todo != [] && s.todo[0].id == id && s.todo[0].edition == edition)
    || (e.Backfill? && s.backlog != [] && s.backlog[0].id == id && s.backlog[0].edition == edition)
  }

  /** Nobody else writes the row, and the scheduler has not come to it yet. */
  ghost predicate HandsOff(s: State, tes: seq<Timed>, id: Id, edition: nat)
    decreases |tes|
  {
    tes != [] ==>
      && !Requests(tes[0].event, id) && !OwnWork(s, tes[0].event, id, edition)
      && HandsOff(Step(s, tes[0]), tes[1..], id, edition)
  }

  predicate Holds(s: State, id: Id, row: Row) { id in s.rows && s.rows[id] == row }

  /** The row stays as written until the scheduler works on it as written, however the run goes on. */
  ghost predicate Survives(s: State, id: Id, row: Row) {
    forall tes | RunsOn(s, tes) && HandsOff(s, tes, id, row.edition) :: Holds(RunOn(s, tes), id, row)
  }

  /** Moving on a one-off switches its row off and clears its next run, which changes nothing if the row is so
    * already. */
  predicate Harmless(d: Due, row: Row) { d.trigger.Once? && !row.enabled && row.next.None? }

  // ---------- keeping ----------

  /** Nothing that was read from an earlier edition of the row is left to be written back to it. */
  ghost predicate OwnWorkOnly(s: State, id: Id, row: Row) {
    && Holds(s, id, row)
    && (forall i | 0 <= i < |s.backlog| && s.backlog[i].id == id :: s.backlog[i].edition == row.edition)
    && (forall i | 0 <= i < |s.todo| && s.todo[i].id == id ::
          s.todo[i].edition == row.edition || Harmless(s.todo[i], row))
    && (s.advancing.Some? && s.advancing.value.id == id ==> Harmless(s.advancing.value, row))
  }

  lemma StepKeepsRow(s: State, te: Timed, id: Id, row: Row)
    requires OwnWorkOnly(s, id, row) && !Requests(te.event, id) && !OwnWork(s, te.event, id, row.edition)
    ensures OwnWorkOnly(Step(s, te), id, row)
  {
    hide ListsDue, ListsUnscheduled, IsSoonest, SleepFor;
  }

  lemma {:induction false} RunKeepsRow(s: State, tes: seq<Timed>, id: Id, row: Row)
    requires OwnWorkOnly(s, id, row) && HandsOff(s, tes, id, row.edition)
    ensures Holds(RunOn(s, tes), id, row)
    decreases |tes|
  {
    hide Step;
    if tes != [] {
      StepKeepsRow(s, tes[0], id, row);
      RunKeepsRow(Step(s, tes[0]), tes[1..], id, row);
    }
  }

  // ---------- overwriting ----------

  /** The row is listed for the backfill as an earlier edition. */
  ghost predicate OldInBacklog(s: State, id: Id, row: Row) {
    && Holds(s, id, row) && (exists i | 0 <= i < |s.backlog| :: s.backlog[i].id == id)
    && (forall i | 0 <= i < |s.backlog| && s.backlog[i].id == id :: s.backlog[i].edition != row.edition)
  }

  /** The row is in hand as an earlier edition, whose handling will change it. */
  ghost predicate OldInHand(s: State, id: Id, row: Row) {
    && s.lastQuery.Some? && Holds(s, id, row) && InHand(s, id)
    && (forall d | d in s.todo && d.id == id :: d.edition != row.edition && !Harmless(d, row))
    && (s.advancing.Some? && s.advancing.value.id == id ==> !Harmless(s.advancing.value, row))
  }

  /** A next run that is not the row's, and later than now. */
  function Other(next: Option<Time>, now: Time): Option<Time> {
    if next == Some(now + 1) then Some(now + 2) else Some(now + 1)
  }

  lemma {:induction false} OverwriteByBackfill(s: State, id: Id, row: Row) returns (tes: seq<Timed>)
    requires OldInBacklog(s, id, row)
    ensures RunsOn(s, tes) && HandsOff(s, tes, id, row.edition) && !Holds(RunOn(s, tes), id, row)
    decreases |s.backlog|
  {
    hide OldInBacklog;
    assert s.backlog != [] && Holds(s, id, row) by {
      BacklogHolds(s, id, row);
    }
    if s.backlog[0].id == id {
      tes := [Timed(Event.Backfill(Other(row.next, s.clock)), s.clock)];
      BackfillOverwrites(s, id, row);
      assert tes[1..] == [];
    } else {
      var te := Timed(Event.Backfill(None), s.clock);
      BacklogMovesUp(s, te, id, row);
      var rest := OverwriteByBackfill(Step(s, te), id, row);
      tes := [te] + rest;
      assert tes[1..] == rest;
    }
  }

  lemma BacklogHolds(s: State, id: Id, row: Row)
    requires OldInBacklog(s, id, row)
    ensures s.backlog != [] && Holds(s, id, row)
  {
  }

  lemma BackfillOverwrites(s: State, id: Id, row: Row)
    requires OldInBacklog(s, id, row) && s.backlog[0].id == id
    ensures var te := Timed(Event.Backfill(Other(row.next, s.clock)), s.clock);
            && EventOk(s, te) && !OwnWork(s, te.event, id, row.edition) && !Holds(Step(s, te), id, row)
  {
  }

  lemma BacklogMovesUp(s: State, te: Timed, id: Id, row: Row)
    requires OldInBacklog(s, id, row) && s.backlog[0].id != id && te == Timed(Event.Backfill(None), s.clock)
    ensures OldInBacklog(Step(s, te), id, row) && !OwnWork(s, te.event, id, row.edition)
    ensures EventOk(s, te) && |Step(s, te).backlog| < |s.backlog|
  {
    var i :| 0 <= i < |s.backlog| && s.backlog[i].id == id;
    assert Step(s, te).backlog[i - 1].id == id;
  }

  lemma {:induction false} OverwriteByHandling(s: State, id: Id, row: Row) returns (tes: seq<Timed>)
    requires OldInHand(s, id, row)
    ensures RunsOn(s, tes) && HandsOff(s, tes, id, row.edition) && !Holds(RunOn(s, tes), id, row)
    decreases 2 * |s.todo| + if s.advancing.Some? then 1 else 0
  {
    hide ListsDue, ListsUnscheduled, IsSoonest, SleepFor, InHand;
    if s.advancing.Some? && s.advancing.value.id == id {
      tes := [Timed(Event.Advance(Other(row.next, s.clock)), s.clock)];
      assert tes[1..] == [];
    } else {
      var te := Timed(if s.advancing.Some? then Event.Advance(None) else Event.Fire(false), s.clock);
      MovesUp(s, te, id, row);
      var rest := OverwriteByHandling(Step(s, te), id, row);
      tes := [te] + rest;
      assert tes[1..] == rest;
    }
  }

  lemma MovesUp(s: State, te: Timed, id: Id, row: Row)
    requires OldInHand(s, id, row) && te.now == s.clock
    requires te.event == if s.advancing.Some? then Event.Advance(None) else Event.Fire(false)
    requires s.advancing.Some? ==> s.advancing.value.id != id
    ensures OldInHand(Step(s, te), id, row) && !OwnWork(s, te.event, id, row.edition)
    ensures var t := Step(s, te);
            2 * |t.todo| + (if t.advancing.Some? then 1 else 0) < 2 * |s.todo| + (if s.advancing.Some? then 1 else 0)
  {
    hide ListsDue, ListsUnscheduled, IsSoonest, SleepFor;
    if s.advancing.None? {
      assert s.todo == [s.todo[0]] + s.todo[1..];
    }
  }

  // ---------- the theorem ----------

  /** A listed row is being handled, and that will change what the request writes. */
  predicate HandlingChanges(s: State, id: Id, row: Row) {
    || (exists d | d in s.todo :: d.id == id && !Harmless(d, row))
    || (s.advancing.Some? && s.advancing.value.id == id && !Harmless(s.advancing.value, row))
  }

  predicate InBacklog(s: State, id: Id) { exists i | 0 <= i < |s.backlog| :: s.backlog[i].id == id }

  /** What a request writes is sure to stand until the scheduler works on the row as written if and only if, at the
    * write, the row is not listed for the backfill, nor in hand for a handling that changes it: either would write back
    * what follows from the trigger read before. */
  lemma EditSurvivesExactly(s: State, te: Timed)
    requires Inv(s) && EventOk(s, te) && te.event.Write?
    ensures var t, id := Step(s, te), te.event.id;
            Survives(t, id, t.rows[id]) <==> !InBacklog(s, id) && !HandlingChanges(s, id, t.rows[id])
  {
    hide OrderOk, SettledOk, Survives, RunsOn, HandsOff;
    var t, id := Step(s, te), te.event.id;
    var row := t.rows[id];
    if InBacklog(s, id) {
      assert OldInBacklog(t, id, row);
      var tes := OverwriteByBackfill(t, id, row);
      Refutes(t, tes, id, row);
    } else if HandlingChanges(s, id, row) {
      OldHandling(s, t, id, row);
      var tes := OverwriteByHandling(t, id, row);
      Refutes(t, tes, id, row);
    } else {
      forall tes | RunsOn(t, tes) && HandsOff(t, tes, id, row.edition) ensures Holds(RunOn(t, tes), id, row) {
        RunKeepsRow(t, tes, id, row);
      }
      Confirms(t, id, row);
    }
  }

  lemma OldHandling(s: State, t: State, id: Id, row: Row)
    requires PastOk(s) && OneOffOk(s) && HandlingChanges(s, id, row) && Holds(t, id, row)
    requires t.todo == s.todo && t.advancing == s.advancing && t.lastQuery == s.lastQuery && row.edition > s.editions
    ensures OldInHand(t, id, row)
  {
    forall d, e | d in s.todo && e in s.todo && d.id == e.id ensures d == e {
      var i :| 0 <= i < |s.todo| && s.todo[i] == d;
      var j :| 0 <= j < |s.todo| && s.todo[j] == e;
      assert i == j;
    }
  }

  lemma Refutes(s: State, tes: seq<Timed>, id: Id, row: Row)
    requires RunsOn(s, tes) && HandsOff(s, tes, id, row.edition) && !Holds(RunOn(s, tes), id, row)
    ensures !Survives(s, id, row)
  {
  }

  lemma Confirms(s: State, id: Id, row: Row)
    requires forall tes | RunsOn(s, tes) && HandsOff(s, tes, id, row.edition) :: Holds(RunOn(s, tes), id, row)
    ensures Survives(s, id, row)
  {
  }

  /** For instance: a one-off is written too late for a next run, and is listed for the backfill; it is rewritten as a
    * recurring schedule due at 100; the backfill, with the trigger it had read, switches the new schedule off. */
  lemma StaleBackfillDisables(past: string, expr: string)
    ensures var tes := [Timed(Event.Write(1, true, Once(past), None), 5), Timed(Event.Scan([1]), 5),
                        Timed(Event.Write(1, true, Cron(expr), Some(100)), 6), Timed(Event.Backfill(None), 7)];
            && RunsOn(INITIAL, tes) && RunOn(INITIAL, tes[..3]).rows == map[1 := Row(true, Cron(expr), Some(100), 2)]
            && RunOn(INITIAL, tes).rows == map[1 := Row(false, Cron(expr), Some(100), 2)]
  {
    var e1, e2 := Timed(Event.Write(1, true, Once(past), None), 5), Timed(Event.Scan([1]), 5);
    var e3, e4 := Timed(Event.Write(1, true, Cron(expr), Some(100)), 6), Timed(Event.Backfill(None), 7);
    var tes := [e1, e2, e3, e4];
    var s1 := Step(INITIAL, e1);
    assert s1.rows == map[1 := Row(true, Once(past), None, 1)];
    var s2 := Step(s1, e2);
    assert [1][0] == 1 && ListsUnscheduled(s1.rows, [1]);
    assert s2.backlog == [Backlog(1, Once(past), 1)];
    var s3 := Step(s2, e3);
    assert s3.rows == map[1 := Row(true, Cron(expr), Some(100), 2)];
    var s4 := Step(s3, e4);
    assert s4.rows == map[1 := Row(false, Cron(expr), Some(100), 2)];
    ThreeSteps(INITIAL, e1, e2, e3, []);
    ThreeSteps(INITIAL, e1, e2, e3, [e4]);
    OneStep(s3, e4, []);
    assert tes[..3] == [e1, e2, e3] + [] && tes == [e1, e2, e3] + [e4] && [e4] == [e4] + [];
  }

  lemma OneStep(s: State, a: Timed, rest: seq<Timed>)
    ensures RunOn(s, [a] + rest) == RunOn(Step(s, a), rest)
    ensures RunsOn(s, [a] + rest) <==> EventOk(s, a) && RunsOn(Step(s, a), rest)
  {
    assert ([a] + rest)[1..] == rest;
  }

  lemma ThreeSteps(s: State, a: Timed, b: Timed, c: Timed, rest: seq<Timed>)
    ensures RunOn(s, [a, b, c] + rest) == RunOn(Step(Step(Step(s, a), b), c), rest)
    ensures RunsOn(s, [a, b, c] + rest) <==>
            && EventOk(s, a) && EventOk(Step(s, a), b) && EventOk(Step(Step(s, a), b), c)
            && RunsOn(Step(Step(Step(s, a), b), c), rest)
  {
    hide Step, EventOk, RunOn, RunsOn;
    OneStep(s, a, [b, c] + rest);
    OneStep(Step(s, a), b, [c] + rest);
    OneStep(Step(Step(s, a), b), c, rest);
    assert [a, b, c] + rest == [a] + ([b, c] + rest) && [b, c] + rest == [b] + ([c] + rest);
  }
}
