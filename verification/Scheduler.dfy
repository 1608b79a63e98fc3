/** The scheduler over persisted rows. Every row rewrite is atomic, but edits, deletions and timezone changes may land
  * between any two statements of an iteration, so the scheduler may act on triggers it read before an edit. */
module Scheduler {
  import opened Wrappers

  type Id = nat

  /** Nanoseconds. */
  type Time = nat

  const MS: Time := 1_000_000

  datatype Trigger = Once(at: string) | Cron(expr: string)

  /** A stored schedule; `edition` numbers the create or update that last wrote its trigger. */
  datatype Row = Row(enabled: bool, trigger: Trigger, next: Option<Time>, edition: nat)

  /** A due row as the query returned it. */
  datatype Due = Due(id: Id, trigger: Trigger, occurrence: Time, edition: nat)

  /** An enabled row without a next run as the backfill's query returned it. */
  datatype Backlog = Backlog(id: Id, trigger: Trigger, edition: nat)

  datatype Handled = Handled(due: Due, queriedAt: Time, skipped: bool)

  datatype State = State(
    rows: map<Id, Row>, clock: Time, editions: nat, backlog: seq<Backlog>, lastQuery: Option<Time>,
    todo: seq<Due>, advancing: Option<Due>, queryBy: Option<Time>, log: seq<Handled>)

  const INITIAL := State(map[], 0, 0, [], None, [], None, None, [])

  /** `next` is what next_run_after returned for the trigger the statement had read. */
  datatype Event =
    | Scan(order: seq<Id>)
    | Backfill(next: Option<Time>)
    | Query(order: seq<Id>)
    | Fire(live: bool)
    | Advance(next: Option<Time>)
    | Sleep(soonest: Option<Time>)
    | Write(id: Id, enabled: bool, trigger: Trigger, next: Option<Time>)
    | Delete(id: Id)
    | Recompute(id: Id, next: Option<Time>)

  datatype Timed = Timed(event: Event, now: Time)

  // ---------- the transition function ----------

  predicate IsDue(row: Row, now: Time) { row.enabled && row.next.Some? && row.next.value <= now }

  predicate Unscheduled(row: Row) { row.enabled && row.next.None? }

  /** The backfill's query returns every enabled row without a next run, in whatever order. */
  predicate ListsUnscheduled(rows: map<Id, Row>, order: seq<Id>) {
    && (forall i | 0 <= i < |order| :: order[i] in rows && Unscheduled(rows[order[i]]))
    && (forall id | id in rows && Unscheduled(rows[id]) :: id in order)
  }

  function Backlogs(rows: map<Id, Row>, order: seq<Id>): (r: seq<Backlog>)
    requires ListsUnscheduled(rows, order)
    ensures |r| == |order|
    ensures forall i | 0 <= i < |r| :: r[i] == Backlog(order[i], rows[order[i]].trigger, rows[order[i]].edition)
  {
    seq(|order|, i requires 0 <= i < |order| => Backlog(order[i], rows[order[i]].trigger, rows[order[i]].edition))
  }

  function DueOf(id: Id, row: Row): Due
    requires row.next.Some?
  {
    Due(id, row.trigger, row.next.value, row.edition)
  }

  /** The query returns every due row once, in whatever order the database likes. */
  predicate ListsDue(rows: map<Id, Row>, order: seq<Id>, now: Time) {
    && (forall i | 0 <= i < |order| :: order[i] in rows && IsDue(rows[order[i]], now))
    && (forall i, j | 0 <= i < j < |order| :: order[i] != order[j])
    && (forall id | id in rows && IsDue(rows[id], now) :: id in order)
  }

  function Dues(rows: map<Id, Row>, order: seq<Id>, now: Time): (r: seq<Due>)
    requires ListsDue(rows, order, now)
    ensures |r| == |order| && forall i | 0 <= i < |r| :: r[i] == DueOf(order[i], rows[order[i]])
  {
    seq(|order|, i requires 0 <= i < |order| => DueOf(order[i], rows[order[i]]))
  }

  /** ORDER BY next_run_at LIMIT 1 over the enabled rows. */
  predicate IsSoonest(rows: map<Id, Row>, soonest: Option<Time>) {
    && (forall id | id in rows && rows[id].enabled && rows[id].next.Some? ::
          soonest.Some? && soonest.value <= rows[id].next.value)
    && (soonest.Some? ==> exists id | id in rows :: rows[id].enabled && rows[id].next == soonest)
  }

  /** The wait until the soonest run, a minute when there is none, never under 200 ms and never over a minute. */
  function SleepFor(soonest: Option<Time>, now: Time): (r: Time)
    ensures 200 * MS <= r <= 60_000 * MS
  {
    var wanted := if soonest.None? then 60_000 * MS else if soonest.value < now then 0 else soonest.value - now;
    if wanted < 200 * MS then 200 * MS else if wanted > 60_000 * MS then 60_000 * MS else wanted
  }

  /** An edit nudges a sleeping scheduler: the next iteration is due at once. */
  function Nudged(queryBy: Option<Time>, now: Time): Option<Time> {
    if queryBy.Some? && now < queryBy.value then Some(now) else queryBy
  }

  function SetNext(rows: map<Id, Row>, id: Id, next: Option<Time>): map<Id, Row> {
    if id in rows then rows[id := rows[id].(next := next)] else rows
  }

  function Disable(rows: map<Id, Row>, id: Id): map<Id, Row> {
    if id in rows then rows[id := rows[id].(enabled := false)] else rows
  }

  function AdvanceRow(rows: map<Id, Row>, due: Due, next: Option<Time>): map<Id, Row> {
    if due.trigger.Once? then SetNext(Disable(rows, due.id), due.id, None) else SetNext(rows, due.id, next)
  }

  /** A listed row gets its next run; a one-off without one is switched off. Both are written by id, whatever the row
    * has become since it was listed. */
  function Scheduled(rows: map<Id, Row>, id: Id, trigger: Trigger, next: Option<Time>): map<Id, Row> {
    if next.Some? then SetNext(rows, id, next) else if trigger.Once? then Disable(rows, id) else rows
  }

  function Backfilled(s: State, next: Option<Time>): State
    requires s.backlog != []
  {
    s.(rows := Scheduled(s.rows, s.backlog[0].id, s.backlog[0].trigger, next), backlog := s.backlog[1..])
  }

  function Queried(s: State, order: seq<Id>, now: Time): State
    requires ListsDue(s.rows, order, now)
  {
    s.(todo := Dues(s.rows, order, now), lastQuery := Some(now), queryBy := None)
  }

  function Fired(s: State, live: bool): State
    requires s.todo != [] && s.lastQuery.Some?
  {
    s.(todo := s.todo[1..], advancing := Some(s.todo[0]), log := s.log + [Handled(s.todo[0], s.lastQuery.value, live)])
  }

  function Advanced(s: State, next: Option<Time>): State
    requires s.advancing.Some?
  {
    s.(rows := AdvanceRow(s.rows, s.advancing.value, next), advancing := None)
  }

  function Step(s: State, te: Timed): State {
    var s, now := s.(clock := te.now), te.now;
    match te.event
    case Scan(order) =>
      if s.backlog == [] && s.todo == [] && s.advancing.None? && ListsUnscheduled(s.rows, order)
      then s.(backlog := Backlogs(s.rows, order), queryBy := Nudged(s.queryBy, now)) else s
    case Backfill(next) =>
      if s.backlog != [] then Backfilled(s, next).(queryBy := Nudged(s.queryBy, now)) else s
    case Query(order) =>
      if s.backlog == [] && s.todo == [] && s.advancing.None? && ListsDue(s.rows, order, now)
      then Queried(s, order, now) else s
    case Fire(live) =>
      if s.todo != [] && s.advancing.None? && s.lastQuery.Some? then Fired(s, live) else s
    case Advance(next) =>
      if s.advancing.Some? then Advanced(s, next) else s
    case Sleep(soonest) =>
      if s.todo == [] && s.advancing.None? && s.lastQuery.Some? && s.queryBy.None? && IsSoonest(s.rows, soonest)
      then s.(queryBy := Some(now + SleepFor(soonest, now))) else s
    case Write(id, enabled, trigger, next) =>
      s.(rows := s.rows[id := Row(enabled, trigger, next, s.editions + 1)], editions := s.editions + 1,
          queryBy := Nudged(s.queryBy, now))
    case Delete(id) => s.(rows := s.rows - {id}, queryBy := Nudged(s.queryBy, now))
    case Recompute(id, next) => s.(rows := SetNext(s.rows, id, next), queryBy := Nudged(s.queryBy, now))
  }

  function Run(tes: seq<Timed>): State {
    if tes == [] then INITIAL else Step(Run(tes[..|tes| - 1]), tes[|tes| - 1])
  }

  function NextOf(e: Event): Option<Time> {
    match e
    case Backfill(next) => next
    case Advance(next) => next
    case Write(_, _, _, next) => next
    case Recompute(_, next) => next
    case _ => None
  }

  /** The clock is monotone, and next_run_after returns instants strictly later than its argument. */
  ghost predicate EventOk(s: State, te: Timed) {
    s.clock <= te.now && (NextOf(te.event).Some? ==> NextOf(te.event).value > te.now)
  }

  ghost predicate RunOk(tes: seq<Timed>) {
    tes != [] ==> RunOk(tes[..|tes| - 1]) && EventOk(Run(tes[..|tes| - 1]), tes[|tes| - 1])
  }

  // ---------- the invariant ----------

  /** The row is being dealt with by the current iteration. */
  predicate InHand(s: State, id: Id) {
    (exists d | d in s.todo :: d.id == id) || (s.advancing.Some? && s.advancing.value.id == id)
  }

  /** Everything handled or about to be lies in the past, and the listed rows are distinct. */
  ghost predicate PastOk(s: State) {
    && (s.lastQuery.Some? ==> s.lastQuery.value <= s.clock)
    && (s.todo != [] || s.advancing.Some? ==> s.lastQuery.Some?)
    && (forall h | h in s.log :: h.due.occurrence <= h.queriedAt <= s.clock)
    && (forall d | d in s.todo :: d.occurrence <= s.lastQuery.value)
    && (s.advancing.Some? ==> s.advancing.value.occurrence <= s.lastQuery.value)
    && (forall i, j | 0 <= i < j < |s.todo| :: s.todo[i].id != s.todo[j].id)
    && (s.advancing.Some? ==> forall d | d in s.todo :: d.id != s.advancing.value.id)
  }

  /** A later occurrence of the same schedule is a later instant. */
  ghost predicate OrderOk(s: State) {
    && (forall i, j | 0 <= i < j < |s.log| && s.log[i].due.id == s.log[j].due.id ::
          s.log[i].due.occurrence < s.log[j].due.occurrence)
    && (forall h, d | h in s.log && d in s.todo && h.due.id == d.id :: h.due.occurrence < d.occurrence)
    && (forall h, id | h in s.log && id in s.rows && h.due.id == id && s.rows[id].next.Some? && !InHand(s, id) ::
          h.due.occurrence < s.rows[id].next.value)
  }

  predicate SameOneOff(a: Due, b: Due) { a.id == b.id && a.trigger.Once? && b.trigger.Once? && a.edition == b.edition }

  /** A handled one-off stays disabled until it is written again. */
  ghost predicate OneOffOk(s: State) {
    && (forall h | h in s.log :: h.due.edition <= s.editions)
    && (forall d | d in s.todo :: d.edition <= s.editions)
    && (forall id | id in s.rows :: s.rows[id].edition <= s.editions)
    && (forall i, j | 0 <= i < j < |s.log| :: !SameOneOff(s.log[i].due, s.log[j].due))
    && (forall h, d | h in s.log && d in s.todo :: !SameOneOff(h.due, d))
    && (forall h, id | h in s.log && id in s.rows && h.due.id == id && h.due.trigger.Once?
          && h.due.edition == s.rows[id].edition ::
          !s.rows[id].enabled || s.advancing == Some(h.due))
  }

  /** Every row that was due at the last query is in hand, or has been moved past it. */
  ghost predicate SettledOk(s: State) {
    s.lastQuery.Some? ==>
      forall id | id in s.rows && s.rows[id].enabled && s.rows[id].next.Some? && !InHand(s, id) ::
          s.rows[id].next.value > s.lastQuery.value
  }

  /** What is listed for the backfill was written before. */
  ghost predicate BacklogOk(s: State) { forall i | 0 <= i < |s.backlog| :: s.backlog[i].edition <= s.editions }

  ghost predicate Inv(s: State) { BacklogOk(s) && PastOk(s) && OrderOk(s) && OneOffOk(s) && SettledOk(s) }

  // ---------- steps ----------

  /** A rewrite of the rows by which no next run moves into the past and nothing is enabled without a new edition. */
  ghost predicate Rewrites(s: State, t: State) {
    && t == s.(rows := t.rows, editions := t.editions, clock := t.clock, queryBy := t.queryBy, backlog := t.backlog)
    && s.clock <= t.clock && s.editions <= t.editions && BacklogOk(t)
    && forall id | id in t.rows ::
         && t.rows[id].edition <= t.editions
         && (t.rows[id].next.Some? ==>
               t.rows[id].next.value > t.clock || (id in s.rows && t.rows[id].next == s.rows[id].next))
         && (t.rows[id].edition > s.editions || (id in s.rows && t.rows[id].edition == s.rows[id].edition
               && (t.rows[id].enabled ==> s.rows[id].enabled)))
         && (t.rows[id].enabled && t.rows[id].next.Some? && t.rows[id].next.value <= t.clock ==>
               id in s.rows && s.rows[id].enabled)
  }

  lemma RewriteKeepsInv(s: State, t: State)
    requires Inv(s) && Rewrites(s, t)
    ensures Inv(t)
  {
    assert forall id :: InHand(t, id) == InHand(s, id);
  }

  lemma QueryKeepsOrder(s: State, order: seq<Id>)
    requires OrderOk(s) && s.todo == [] && s.advancing.None? && ListsDue(s.rows, order, s.clock)
    ensures OrderOk(Queried(s, order, s.clock))
  {
    assert forall id :: !InHand(s, id);
  }

  lemma QueryKeepsOneOff(s: State, order: seq<Id>)
    requires OneOffOk(s) && s.todo == [] && s.advancing.None? && ListsDue(s.rows, order, s.clock)
    ensures OneOffOk(Queried(s, order, s.clock))
  {
  }

  lemma QueryKeepsInv(s: State, order: seq<Id>)
    requires Inv(s) && s.todo == [] && s.advancing.None? && ListsDue(s.rows, order, s.clock)
    ensures Inv(Queried(s, order, s.clock))
  {
    var t := Queried(s, order, s.clock);
    forall id | id in s.rows && IsDue(s.rows[id], s.clock)
      ensures InHand(t, id)
    {
      var i :| 0 <= i < |order| && order[i] == id;
      assert t.todo[i] in t.todo && t.todo[i].id == id;
    }
    assert PastOk(t) by {
      hide OrderOk, OneOffOk, SettledOk;
    }
    QueryKeepsOrder(s, order);
    QueryKeepsOneOff(s, order);
    assert SettledOk(t);
  }

  lemma FireMovesHand(s: State, live: bool)
    requires s.todo != [] && s.advancing.None? && s.lastQuery.Some?
    ensures forall id :: InHand(Fired(s, live), id) == InHand(s, id)
    ensures forall d | d in Fired(s, live).todo :: d in s.todo
  {
    var t := Fired(s, live);
    assert s.todo == [s.todo[0]] + t.todo;
  }

  lemma FireKeepsOrder(s: State, live: bool)
    requires PastOk(s) && OrderOk(s) && s.todo != [] && s.advancing.None? && s.lastQuery.Some?
    ensures OrderOk(Fired(s, live))
  {
    var t := Fired(s, live);
    FireMovesHand(s, live);
    assert s.todo[0] in s.todo;
    assert t.advancing == Some(s.todo[0]);
    assert forall d | d in t.todo :: d.id != s.todo[0].id;
  }

  lemma FireKeepsPast(s: State, live: bool)
    requires PastOk(s) && s.todo != [] && s.advancing.None? && s.lastQuery.Some?
    ensures PastOk(Fired(s, live))
  {
    FireMovesHand(s, live);
    assert s.todo[0] in s.todo;
  }

  lemma FireKeepsOneOff(s: State, live: bool)
    requires PastOk(s) && OneOffOk(s) && s.todo != [] && s.advancing.None? && s.lastQuery.Some?
    ensures OneOffOk(Fired(s, live))
  {
    FireMovesHand(s, live);
    assert s.todo[0] in s.todo;
  }

  lemma FireKeepsSettled(s: State, live: bool)
    requires SettledOk(s) && s.todo != [] && s.advancing.None? && s.lastQuery.Some?
    ensures SettledOk(Fired(s, live))
  {
    FireMovesHand(s, live);
    hide InHand;
  }

  lemma FireKeepsInv(s: State, live: bool)
    requires Inv(s) && s.todo != [] && s.advancing.None? && s.lastQuery.Some?
    ensures Inv(Fired(s, live))
  {
    hide PastOk, OrderOk, OneOffOk, SettledOk;
    FireKeepsPast(s, live);
    FireKeepsOrder(s, live);
    FireKeepsOneOff(s, live);
    FireKeepsSettled(s, live);
  }

  lemma AdvanceKeepsInv(s: State, next: Option<Time>)
    requires Inv(s) && s.advancing.Some? && (next.Some? ==> next.value > s.clock)
    ensures Inv(Advanced(s, next))
  {
    var t := Advanced(s, next);
    assert forall id | id != s.advancing.value.id :: InHand(t, id) == InHand(s, id);
    assert PastOk(t) by {
      hide OrderOk, OneOffOk, SettledOk;
    }
    assert OrderOk(t) by {
      hide OneOffOk, SettledOk;
    }
    assert OneOffOk(t) by {
      hide OrderOk, SettledOk, InHand;
    }
    assert SettledOk(t) by {
      hide OrderOk, OneOffOk;
    }
  }

  lemma StepKeepsInv(s: State, te: Timed)
    requires Inv(s) && EventOk(s, te)
    ensures Inv(Step(s, te))
  {
    hide Inv;
    hide Queried, Fired, Advanced, ListsDue;
    var s1 := s.(clock := te.now);
    assert Inv(s1) by {
      RewriteKeepsInv(s, s1) by { ClockRewrites(s, s1); }
    }
    match te.event
    case Query(order) =>
      if s1.backlog == [] && s1.todo == [] && s1.advancing.None? && ListsDue(s1.rows, order, te.now) {
        QueryKeepsInv(s1, order);
      }
    case Fire(live) =>
      if s1.todo != [] && s1.advancing.None? && s1.lastQuery.Some? {
        FireKeepsInv(s1, live);
      }
    case Advance(next) =>
      if s1.advancing.Some? {
        AdvanceKeepsInv(s1, next);
      }
    case _ => EditRewrites(s, te); RewriteKeepsInv(s, Step(s, te));
  }

  lemma ClockRewrites(s: State, t: State)
    requires Inv(s) && t == s.(clock := t.clock) && s.clock <= t.clock
    ensures Rewrites(s, t)
  {
  }

  lemma ScanReadsEditions(s: State, te: Timed)
    requires BacklogOk(s) && OneOffOk(s)
    ensures BacklogOk(Step(s, te))
  {
    hide ListsDue;
  }

  lemma EditRewrites(s: State, te: Timed)
    requires Inv(s) && EventOk(s, te) && !te.event.Query? && !te.event.Fire? && !te.event.Advance?
    ensures Rewrites(s, Step(s, te))
  {
    hide PastOk, OrderOk, SettledOk, BacklogOk, ListsDue, ListsUnscheduled, IsSoonest, SleepFor, Nudged;
    ScanReadsEditions(s, te);
  }

  lemma {:induction false} RunKeepsInv(tes: seq<Timed>)
    requires RunOk(tes)
    ensures Inv(Run(tes))
  {
    hide Inv;
    if tes == [] {
      InitialInv();
    } else {
      RunKeepsInv(tes[..|tes| - 1]);
      StepKeepsInv(Run(tes[..|tes| - 1]), tes[|tes| - 1]);
    }
  }

  lemma InitialInv()
    ensures Inv(INITIAL)
  {
  }

  // ---------- what every run keeps ----------

  /** The occurrences handled for one schedule strictly increase over a whole run, whatever is edited meanwhile: none is
    * handled twice. */
  lemma EachOccurrenceOnce(tes: seq<Timed>, i: nat, j: nat)
    requires RunOk(tes) && i < j < |Run(tes).log|
    requires Run(tes).log[i].due.id == Run(tes).log[j].due.id
    ensures Run(tes).log[i].due.occurrence < Run(tes).log[j].due.occurrence
  {
    RunKeepsInv(tes);
  }

  /** A one-off is handled at most once between two writes of its schedule. */
  lemma OneOffOnce(tes: seq<Timed>, i: nat, j: nat)
    requires RunOk(tes) && i < j < |Run(tes).log|
    ensures !SameOneOff(Run(tes).log[i].due, Run(tes).log[j].due)
  {
    RunKeepsInv(tes);
  }

  /** Once an iteration has worked off its list, no enabled row is due at the time of its query. */
  lemma NothingStaysDue(tes: seq<Timed>, id: Id)
    requires RunOk(tes)
    ensures var s := Run(tes);
            s.lastQuery.Some? && s.todo == [] && s.advancing.None? && id in s.rows && s.rows[id].enabled ==>
              s.rows[id].next == None || s.rows[id].next.value > s.lastQuery.value
  {
    RunKeepsInv(tes);
  }

  /** An occurrence is handled only once it has come. */
  lemma NeverEarly(tes: seq<Timed>, i: nat)
    requires RunOk(tes) && i < |Run(tes).log|
    ensures Run(tes).log[i].due.occurrence <= Run(tes).log[i].queriedAt <= Run(tes).clock
  {
    RunKeepsInv(tes);
    assert Run(tes).log[i] in Run(tes).log;
  }

  // ---------- nothing listed is dropped ----------

  function DuesOf(log: seq<Handled>): seq<Due> {
    if log == [] then [] else DuesOf(log[..|log| - 1]) + [log[|log| - 1].due]
  }

  function ListedBy(s: State, te: Timed): seq<Due> {
    if te.event.Query? && s.backlog == [] && s.todo == [] && s.advancing.None?
       && ListsDue(s.rows, te.event.order, te.now)
    then Dues(s.rows, te.event.order, te.now) else []
  }

  /** Every row that any query of the run returned, in the order returned. */
  function Listed(tes: seq<Timed>): seq<Due> {
    if tes == [] then [] else Listed(tes[..|tes| - 1]) + ListedBy(Run(tes[..|tes| - 1]), tes[|tes| - 1])
  }

  lemma FireMovesOne(log: seq<Handled>, h: Handled, todo: seq<Due>)
    requires todo != [] && h.due == todo[0]
    ensures DuesOf(log + [h]) + todo[1..] == DuesOf(log) + todo
  {
    assert (log + [h])[..|log|] == log;
  }

  lemma StepLists(s: State, te: Timed)
    ensures DuesOf(Step(s, te).log) + Step(s, te).todo == DuesOf(s.log) + s.todo + ListedBy(s, te)
  {
    hide ListsDue, AdvanceRow, SetNext, Disable, IsSoonest, SleepFor, DuesOf;
    if te.event.Fire? && s.todo != [] && s.advancing.None? && s.lastQuery.Some? {
      FireMovesOne(s.log, Handled(s.todo[0], s.lastQuery.value, te.event.live), s.todo);
    }
  }

  /** Every due row a query returned is handled, once and in that order, or still listed to be. */
  lemma {:induction false} NothingIsDropped(tes: seq<Timed>)
    ensures DuesOf(Run(tes).log) + Run(tes).todo == Listed(tes)
  {
    hide Step, ListedBy;
    if tes != [] {
      NothingIsDropped(tes[..|tes| - 1]);
      StepLists(Run(tes[..|tes| - 1]), tes[|tes| - 1]);
    }
  }
}
