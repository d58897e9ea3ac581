/**
 * What becomes of delivery statuses (buyer/app/persistence.py): a write reads them, deletes the rows and
 * inserts them again, while marks land without the store's lock (buyer/app/state.py).
 */
module DeliveryStatuses {
  import opened Common
  import opened Sessions
  import opened Postgres
  import opened PostgresRefinement

  /** The event has a row of this session with this status. */
  predicate HasStatus(rows: seq<EventRow>, sid: string, eventId: string, status: Delivery) {
    exists i | 0 <= i < |rows| :: IsStatusRow(rows[i], sid, eventId, status)
  }

  predicate IsStatusRow(row: EventRow, sid: string, eventId: string, status: Delivery) {
    row.sessionId == sid && row.eventId == eventId && row.delivery == status
  }

  lemma {:induction false} StatusOfRow(rows: seq<EventRow>, i: nat)
    requires UniqueEvents(rows) && i < |rows|
    ensures var read := StatusesOf(rows, rows[i].sessionId);
            rows[i].eventId in read && read[rows[i].eventId] == rows[i].delivery
  {
    if i < |rows| - 1 {
      assert rows[|rows| - 1].eventId != rows[i].eventId;
      StatusOfRow(rows[..|rows| - 1], i);
    }
  }

  // ----- one rewrite

  lemma KeptRow(rows: seq<EventRow>, read: Statuses, written: string, events: seq<Event>, z: Sanitizers,
                sid: string, eventId: string, status: Delivery)
    requires HasStatus(rows, sid, eventId, status) && sid != written
    ensures HasStatus(SyncedEvents(rows, read, written, events, z), sid, eventId, status)
  {
    var i :| 0 <= i < |rows| && IsStatusRow(rows[i], sid, eventId, status);
    var kept, added := EventsNotOf(rows, written), NewEventRows(read, written, events, z);
    FilterMembers(rows, (r: EventRow) => r.sessionId != written);
    assert rows[i] in rows && rows[i] in kept;
    var k :| 0 <= k < |kept| && kept[k] == rows[i];
    assert IsStatusRow((kept + added)[k], sid, eventId, status);
  }

  lemma RewrittenRow(rows: seq<EventRow>, read: Statuses, sid: string, events: seq<Event>, z: Sanitizers, k: nat)
    requires k < |events|
    ensures HasStatus(SyncedEvents(rows, read, sid, events, z), sid, events[k].eventId, StatusIn(read, events[k].eventId))
  {
    var kept, added := EventsNotOf(rows, sid), NewEventRows(read, sid, events, z);
    assert (kept + added)[|kept| + k] == added[k];
    assert IsStatusRow((kept + added)[|kept| + k], sid, events[k].eventId, StatusIn(read, events[k].eventId));
  }

  /** A rewrite leaves an event of its session with the status that was read, and with no other. */
  lemma RewriteKeepsStatusRead(rows: seq<EventRow>, read: Statuses, sid: string, events: seq<Event>, z: Sanitizers, k: nat,
                               status: Delivery)
    requires k < |events|
    ensures HasStatus(SyncedEvents(rows, read, sid, events, z), sid, events[k].eventId, status)
       <==> status == StatusIn(read, events[k].eventId)
  {
    var kept, added := EventsNotOf(rows, sid), NewEventRows(read, sid, events, z);
    RewrittenRow(rows, read, sid, events, z, k);
    FilterMembers(rows, (r: EventRow) => r.sessionId != sid);
    forall j | 0 <= j < |kept| ensures kept[j].sessionId != sid { assert kept[j] in kept; }
    forall j | 0 <= j < |kept + added| && IsStatusRow((kept + added)[j], sid, events[k].eventId, status)
      ensures status == StatusIn(read, events[k].eventId)
    {
      assert j >= |kept|;
      assert (kept + added)[j] == added[j - |kept|];
    }
  }

  /** A mark that lands between the read and the rest of a write is overwritten with what was read. */
  lemma MarkCanBeLost(row: EventRow, e: Event, status: Delivery, z: Sanitizers)
    requires e.eventId == row.eventId && status != row.delivery
    ensures var read := StatusesOf([row], row.sessionId);
            var marked := Marked([row], row.eventId, status);
            var written := SyncedEvents(marked, read, row.sessionId, [e], z);
      && HasStatus(marked, row.sessionId, row.eventId, status)
      && HasStatus(written, row.sessionId, row.eventId, row.delivery)
      && !HasStatus(written, row.sessionId, row.eventId, status)
  {
    var read := StatusesOf([row], row.sessionId);
    var marked := Marked([row], row.eventId, status);
    StatusOfRow([row], 0);
    assert IsStatusRow(marked[0], row.sessionId, row.eventId, status);
    RewriteKeepsStatusRead(marked, read, row.sessionId, [e], z, 0, status);
    RewriteKeepsStatusRead(marked, read, row.sessionId, [e], z, 0, row.delivery);
  }

  // ----- whole histories

  /** The status of one event, and what a write now under way on its session has read of it. */
  datatype Tracked = Tracked(status: Delivery, atRead: Option<Delivery>)

  function Track(t: Tracked, sid: string, eventId: string, call: Call): Tracked {
    match call
    case Read(s) => if s == sid then t.(atRead := Some(t.status)) else t
    case Mark(id, status) => if id == eventId then t.(status := status) else t
    case On(s, _) => if s == sid && t.atRead.Some? then Tracked(t.atRead.value, None) else t
    case _ => t
  }

  function TrackAll(t: Tracked, sid: string, eventId: string, calls: seq<(Call, Time)>): Tracked
    decreases calls
  {
    if calls == [] then t else TrackAll(Track(t, sid, eventId, calls[0].0), sid, eventId, calls[1..])
  }

  /** The database holds what is tracked. */
  ghost predicate Holds(x: Store, sid: string, eventId: string, t: Tracked) {
    && HasStatus(x.db.events, sid, eventId, t.status)
    && if HasRead(x, sid) then eventId in x.read.value.1 && t.atRead == Some(x.read.value.1[eventId])
       else t.atRead == None
  }

  lemma RowHasEvent(db: Tables, s: Session, z: Sanitizers, i: nat) returns (k: nat)
    requires SessionMatches(db, s, z) && i < |db.events| && db.events[i].sessionId == s.id
    ensures k < |s.events| && z.Events(s.events)[k].eventId == db.events[i].eventId
  {
    var mine := EventsOf(db.events, s.id);
    FilterMembers(db.events, (r: EventRow) => r.sessionId == s.id);
    assert db.events[i] in db.events && db.events[i] in mine;
    k :| 0 <= k < |mine| && mine[k] == db.events[i];
    assert LoadedEvent(mine[k]) == z.Event(s.events[k]);
  }

  lemma ReadTracks(x: Store, sid: string, eventId: string, t: Tracked)
    requires UniqueEvents(x.db.events) && x.read == None && Holds(x, sid, eventId, t)
    ensures Holds(Store(x.db, Some((sid, StatusesOf(x.db.events, sid)))), sid, eventId, t.(atRead := Some(t.status)))
  {
    var i :| 0 <= i < |x.db.events| && IsStatusRow(x.db.events[i], sid, eventId, t.status);
    StatusOfRow(x.db.events, i);
  }

  lemma MarkTracks(x: Store, sid: string, eventId: string, t: Tracked, id: string, status: Delivery)
    requires Holds(x, sid, eventId, t)
    ensures Holds(x.(db := MarkedDelivery(x.db, id, status)), sid, eventId, Track(t, sid, eventId, Mark(id, status)))
  {
    var i :| 0 <= i < |x.db.events| && IsStatusRow(x.db.events[i], sid, eventId, t.status);
    assert IsStatusRow(Marked(x.db.events, id, status)[i], sid, eventId, Track(t, sid, eventId, Mark(id, status)).status);
  }

  lemma DeleteTracks(x: Store, ids: set<string>, sid: string, eventId: string, t: Tracked)
    requires Holds(x, sid, eventId, t) && sid !in ids && x.read == None
    ensures Holds(Store(Deleted(x.db, ids), None), sid, eventId, t)
  {
    var i :| 0 <= i < |x.db.events| && IsStatusRow(x.db.events[i], sid, eventId, t.status);
    var left := Deleted(x.db, ids).events;
    FilterMembers(x.db.events, (r: EventRow) => r.sessionId !in ids);
    assert x.db.events[i] in x.db.events && x.db.events[i] in left;
    var k :| 0 <= k < |left| && left[k] == x.db.events[i];
    assert IsStatusRow(left[k], sid, eventId, t.status);
  }

  lemma OwnWriteTracks(s: Session, db: Tables, read: Statuses, events: seq<Event>, z: Sanitizers, eventId: string,
                       status: Delivery)
    requires SessionMatches(db, s, z) && HasStatus(db.events, s.id, eventId, status)
    requires z.Events(s.events) <= events
    ensures HasStatus(SyncedEvents(db.events, read, s.id, events, z), s.id, eventId, StatusIn(read, eventId))
  {
    var i :| 0 <= i < |db.events| && IsStatusRow(db.events[i], s.id, eventId, status);
    var k := RowHasEvent(db, s, z, i);
    assert events[k] == z.Events(s.events)[k];
    RewrittenRow(db.events, read, s.id, events, z, k);
  }

  lemma WriteTracks(mem: map<string, Session>, x: Store, u: Session, z: Sanitizers, now: Time, db: Tables,
                    sid: string, eventId: string, t: Tracked)
    requires Refines(mem, x.db, z) && sid in mem && Holds(x, sid, eventId, t)
    requires HasRead(x, u.id) && Writes(x.db, x.read.value.1, u, z, now, db)
    requires u.id == sid ==> z.Events(mem[sid].events) <= u.events
    ensures Holds(Store(db, None), sid, eventId, if t.atRead.Some? then Tracked(t.atRead.value, None) else t)
  {
    if u.id == sid {
      OwnWriteTracks(mem[sid], x.db, x.read.value.1, u.events, z, eventId, t.status);
    } else {
      KeptRow(x.db.events, x.read.value.1, u.id, u.events, z, sid, eventId, t.status);
    }
  }

  lemma OnTracks(mem: map<string, Session>, x: Store, s: string, op: StoreOp, z: Sanitizers, now: Time, y: Store,
                 sid: string, eventId: string, t: Tracked)
    requires z.Valid() && Refines(mem, x.db, z) && DbStep(x, On(s, op), z, now, y)
    requires sid in mem && Holds(x, sid, eventId, t)
    ensures Holds(y, sid, eventId, Track(t, sid, eventId, On(s, op)))
  {
    var loaded :| Loads(x.db, s, loaded) && Updates(x, s, loaded, op, z, now, y);
    LoadAgrees(mem, x.db, z, s, loaded);
    if loaded.Some? && Change(loaded.value, op, now).Ok? {
      ChangeAppendsEvent(loaded.value, op, now);
      WriteTracks(mem, x, Change(loaded.value, op, now).value, z, now, y.db, sid, eventId, t);
    }
  }

  lemma StepTracks(mem: map<string, Session>, x: Store, call: Call, z: Sanitizers, now: Time, y: Store,
                   sid: string, eventId: string, t: Tracked)
    requires z.Valid() && Refines(mem, x.db, z) && Allowed(mem, x.db, call) && DbStep(x, call, z, now, y)
    requires sid in mem && Holds(x, sid, eventId, t) && (call.Delete? ==> sid !in call.ids)
    ensures Holds(y, sid, eventId, Track(t, sid, eventId, call))
  {
    match call
    case Create(s) => KeptRow(x.db.events, x.read.value.1, s.id, s.events, z, sid, eventId, t.status);
    case On(s, op) => OnTracks(mem, x, s, op, z, now, y, sid, eventId, t);
    case Delete(ids) => DeleteTracks(x, ids, sid, eventId, t);
    case Read(s) => if s == sid { ReadTracks(x, sid, eventId, t); }
    case Mark(id, status) => MarkTracks(x, sid, eventId, t, id, status);
  }

  predicate NeverDeletes(calls: seq<(Call, Time)>, sid: string) {
    forall i | 0 <= i < |calls| && calls[i].0.Delete? :: sid !in calls[i].0.ids
  }

  /** What a history keeps about one event of a session, step by step. */
  ghost predicate InStep(mem: map<string, Session>, x: Store, z: Sanitizers, sid: string, eventId: string, t: Tracked) {
    sid in mem && Refines(mem, x.db, z) && Holds(x, sid, eventId, t)
  }

  lemma StepStaysInStep(mem: map<string, Session>, x: Store, call: Call, z: Sanitizers, now: Time, y: Store,
                        sid: string, eventId: string, t: Tracked)
    requires z.Valid() && Allowed(mem, x.db, call) && DbStep(x, call, z, now, y)
    requires InStep(mem, x, z, sid, eventId, t) && (call.Delete? ==> sid !in call.ids)
    ensures InStep(MemStep(mem, call, now), y, z, sid, eventId, Track(t, sid, eventId, call))
  {
    StepTracks(mem, x, call, z, now, y, sid, eventId, t);
    StepRefines(mem, x, call, z, now, y);
  }

  /** Over any history that does not delete its session, an event's status is exactly the tracked one. */
  lemma {:induction false} HistoryTracks(mem: map<string, Session>, calls: seq<(Call, Time)>, states: seq<Store>,
                                         z: Sanitizers, sid: string, eventId: string, t: Tracked)
    requires z.Valid() && History(mem, calls, states, z) && NeverDeletes(calls, sid)
    requires InStep(mem, states[0], z, sid, eventId, t)
    ensures InStep(MemRun(mem, calls), states[|calls|], z, sid, eventId, TrackAll(t, sid, eventId, calls))
    decreases calls
  {
    if calls != [] {
      StepStaysInStep(mem, states[0], calls[0].0, z, calls[0].1, states[1], sid, eventId, t);
      HistoryTracks(MemStep(mem, calls[0].0, calls[0].1), calls[1..], states[1..], z, sid, eventId,
                    Track(t, sid, eventId, calls[0].0));
    }
  }

  lemma StatusIsUnique(rows: seq<EventRow>, sid: string, eventId: string, a: Delivery, b: Delivery)
    requires UniqueEvents(rows) && HasStatus(rows, sid, eventId, a)
    ensures HasStatus(rows, sid, eventId, b) <==> a == b
  {
    var i :| 0 <= i < |rows| && IsStatusRow(rows[i], sid, eventId, a);
    forall j | 0 <= j < |rows| && IsStatusRow(rows[j], sid, eventId, b) ensures i == j {
      assert rows[i].eventId == rows[j].eventId;
    }
  }

  /** So after such a history the event has the tracked status and no other. */
  lemma StatusAfterHistory(mem: map<string, Session>, calls: seq<(Call, Time)>, states: seq<Store>, z: Sanitizers,
                           sid: string, eventId: string, t: Tracked, status: Delivery)
    requires z.Valid() && History(mem, calls, states, z) && NeverDeletes(calls, sid)
    requires InStep(mem, states[0], z, sid, eventId, t)
    ensures HasStatus(states[|calls|].db.events, sid, eventId, status) <==> status == TrackAll(t, sid, eventId, calls).status
  {
    HistoryTracks(mem, calls, states, z, sid, eventId, t);
    StatusIsUnique(states[|calls|].db.events, sid, eventId, TrackAll(t, sid, eventId, calls).status, status);
  }

  // ----- when the last mark survives

  /** The last mark of the event, or what it started with. */
  function LastMark(status: Delivery, eventId: string, calls: seq<(Call, Time)>): Delivery
    decreases calls
  {
    if calls == [] then status
    else
      var call := calls[0].0;
      LastMark(if call.Mark? && call.eventId == eventId then call.delivery else status, eventId, calls[1..])
  }

  /** No mark that changes the event's status lands while a write on its session is under way. */
  predicate Undisturbed(t: Tracked, sid: string, eventId: string, calls: seq<(Call, Time)>)
    decreases calls
  {
    calls == []
    || (var next := Track(t, sid, eventId, calls[0].0);
        && (next.atRead.Some? ==> next.atRead.value == next.status)
        && Undisturbed(next, sid, eventId, calls[1..]))
  }

  lemma {:induction false} UndisturbedKeepsLastMark(t: Tracked, sid: string, eventId: string, calls: seq<(Call, Time)>)
    requires (t.atRead.Some? ==> t.atRead.value == t.status) && Undisturbed(t, sid, eventId, calls)
    ensures TrackAll(t, sid, eventId, calls).status == LastMark(t.status, eventId, calls)
    decreases calls
  {
    if calls != [] {
      UndisturbedKeepsLastMark(Track(t, sid, eventId, calls[0].0), sid, eventId, calls[1..]);
    }
  }

  /**
   * Over a whole history, an event keeps the status of its last mark, through all writes of all sessions,
   * if no mark of it lands inside a write of its session.
   */
  lemma StatusIsLastMark(mem: map<string, Session>, calls: seq<(Call, Time)>, states: seq<Store>, z: Sanitizers,
                         sid: string, eventId: string, status: Delivery)
    requires z.Valid() && History(mem, calls, states, z) && NeverDeletes(calls, sid)
    requires InStep(mem, states[0], z, sid, eventId, Tracked(status, None))
    requires Undisturbed(Tracked(status, None), sid, eventId, calls)
    ensures HasStatus(states[|calls|].db.events, sid, eventId, LastMark(status, eventId, calls))
  {
    UndisturbedKeepsLastMark(Tracked(status, None), sid, eventId, calls);
    StatusAfterHistory(mem, calls, states, z, sid, eventId, Tracked(status, None), LastMark(status, eventId, calls));
  }

  /** Only marks, one after the other. */
  predicate OnlyMarks(calls: seq<(Call, Time)>) {
    forall i | 0 <= i < |calls| :: calls[i].0.Mark?
  }

  lemma {:induction false} MarksTrack(t: Tracked, sid: string, eventId: string, marks: seq<(Call, Time)>)
    requires OnlyMarks(marks)
    ensures TrackAll(t, sid, eventId, marks) == Tracked(LastMark(t.status, eventId, marks), t.atRead)
    decreases marks
  {
    if marks != [] {
      assert marks[0].0.Mark?;
      MarksTrack(Track(t, sid, eventId, marks[0].0), sid, eventId, marks[1..]);
    }
  }

  lemma {:induction false} TrackAppend(t: Tracked, sid: string, eventId: string, a: seq<(Call, Time)>, b: seq<(Call, Time)>)
    ensures TrackAll(t, sid, eventId, a + b) == TrackAll(TrackAll(t, sid, eventId, a), sid, eventId, b)
    decreases a
  {
    if a == [] {
      assert a + b == b;
    } else {
      assert (a + b)[1..] == a[1..] + b;
      TrackAppend(Track(t, sid, eventId, a[0].0), sid, eventId, a[1..], b);
    }
  }

  /** A write under way: its read, marks from outside the lock, and the rest of the write. */
  function MarkedWrite(sid: string, marks: seq<(Call, Time)>, op: StoreOp, now: Time): seq<(Call, Time)> {
    [(Read(sid), now)] + marks + [(On(sid, op), now)]
  }

  lemma MarkedWriteDeletesNothing(sid: string, marks: seq<(Call, Time)>, op: StoreOp, now: Time)
    requires OnlyMarks(marks)
    ensures NeverDeletes(MarkedWrite(sid, marks, op, now), sid)
  {
  }

  lemma MarkedWriteTracks(status: Delivery, sid: string, eventId: string, marks: seq<(Call, Time)>, op: StoreOp, now: Time)
    requires OnlyMarks(marks)
    ensures TrackAll(Tracked(status, None), sid, eventId, MarkedWrite(sid, marks, op, now)) == Tracked(status, None)
  {
    var start, first, last := Tracked(status, None), [(Read(sid), now)], [(On(sid, op), now)];
    TrackAppend(start, sid, eventId, first, marks);
    assert TrackAll(start, sid, eventId, first) == Tracked(status, Some(status));
    MarksTrack(Tracked(status, Some(status)), sid, eventId, marks);
    TrackAppend(start, sid, eventId, first + marks, last);
  }

  /**
   * Marks that land inside a write of the event's session survive it if and only if they leave the event
   * with the status that the write had read.
   */
  lemma {:induction false} WriteKeepsStatusIffUndisturbed(mem: map<string, Session>, marks: seq<(Call, Time)>, op: StoreOp, now: Time,
                                       states: seq<Store>, z: Sanitizers, sid: string, eventId: string, status: Delivery)
    requires z.Valid() && OnlyMarks(marks) && History(mem, MarkedWrite(sid, marks, op, now), states, z)
    requires InStep(mem, states[0], z, sid, eventId, Tracked(status, None))
    ensures HasStatus(states[|marks| + 2].db.events, sid, eventId, LastMark(status, eventId, marks))
       <==> LastMark(status, eventId, marks) == status
  {
    var calls := MarkedWrite(sid, marks, op, now);
    MarkedWriteDeletesNothing(sid, marks, op, now);
    MarkedWriteTracks(status, sid, eventId, marks, op, now);
    StatusAfterHistory(mem, calls, states, z, sid, eventId, Tracked(status, None), LastMark(status, eventId, marks));
  }
}
