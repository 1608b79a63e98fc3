/** The scheduler's two queries compare next_run_at as text; they select what comparing instants would. */
module ScheduleQueries {
  import opened Wrappers
  import opened TimeText
  import opened Scheduler

  /** The columns the queries look at. Stored instants are printed, and read back only by the soonest query. */
  datatype Column = Column(enabled: bool, nextRunAt: Option<string>)

  /** The column holds the row's next run, printed. */
  ghost predicate Holds(column: Column, row: Row, next: Option<Instant>) {
    && column.enabled == row.enabled
    && (next.Some? ==> Valid(next.value))
    && column.nextRunAt == (if next.Some? then Some(Text(next.value)) else None)
    && row.next == (if next.Some? then Some(Nanos(next.value)) else None)
  }

  /** The table and what it stands for. */
  ghost predicate Stores(table: map<Id, Column>, rows: map<Id, Row>, nexts: map<Id, Option<Instant>>) {
    table.Keys == rows.Keys == nexts.Keys && forall id | id in rows :: Holds(table[id], rows[id], nexts[id])
  }

  predicate AtMost(a: string, b: string) { !TextLess(b, a) }

  /** WHERE enabled = 1 AND next_run_at IS NOT NULL AND next_run_at <= ? */
  predicate Selected(column: Column, now: string) {
    column.enabled && column.nextRunAt.Some? && AtMost(column.nextRunAt.value, now)
  }

  /** ORDER BY next_run_at ASC LIMIT 1 over the enabled rows that have one. */
  predicate First(table: map<Id, Column>, id: Id) {
    && id in table && table[id].enabled && table[id].nextRunAt.Some?
    && forall other | other in table && table[other].enabled && table[other].nextRunAt.Some? ::
         AtMost(table[id].nextRunAt.value, table[other].nextRunAt.value)
  }

  /** The text comparison selects exactly the rows that are due. */
  lemma SelectedRowsAreDue(table: map<Id, Column>, rows: map<Id, Row>, nexts: map<Id, Option<Instant>>, now: Instant,
      id: Id)
    requires Stores(table, rows, nexts) && Valid(now) && id in table
    ensures Selected(table[id], Text(now)) <==> IsDue(rows[id], Nanos(now))
  {
    hide Text, Nanos, Valid;
    assert Holds(table[id], rows[id], nexts[id]);
    if nexts[id].Some? {
      TextOrderIsTimeOrder(now, nexts[id].value);
    }
  }

  /** The first row by text is one whose run is the soonest, and the other way round. */
  lemma FirstRowIsSoonest(table: map<Id, Column>, rows: map<Id, Row>, nexts: map<Id, Option<Instant>>, id: Id)
    requires Stores(table, rows, nexts)
    ensures First(table, id) <==>
            id in rows && rows[id].enabled && rows[id].next.Some? && IsSoonest(rows, rows[id].next)
  {
    hide Text, Nanos, Valid, TextLess;
    if id in rows && rows[id].enabled && rows[id].next.Some? {
      forall other | other in rows && rows[other].enabled && rows[other].next.Some?
        ensures AtMost(table[id].nextRunAt.value, table[other].nextRunAt.value)
            <==> rows[id].next.value <= rows[other].next.value
      {
        assert Holds(table[id], rows[id], nexts[id]) && Holds(table[other], rows[other], nexts[other]);
        TextOrderIsTimeOrder(nexts[other].value, nexts[id].value);
      }
    }
  }

  /** Without an enabled row that has one, there is no soonest run. */
  lemma NoFirstNoSoonest(table: map<Id, Column>, rows: map<Id, Row>, nexts: map<Id, Option<Instant>>)
    requires Stores(table, rows, nexts)
    ensures (forall id | id in table :: !(table[id].enabled && table[id].nextRunAt.Some?)) <==> IsSoonest(rows, None)
  {
    assert forall id | id in rows :: Holds(table[id], rows[id], nexts[id]);
  }
}
