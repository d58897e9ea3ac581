/** The tables behind PostgresSessionRepository and the statements that read and write them (buyer/app/persistence.py). */
module Postgres {
  import opened Common
  import StableSort
  import opened Sanitizer
  import opened Sessions

  // ----- rows

  datatype SessionRow = SessionRow(task: Task, status: Status, lastError: Option<string>, updatedAt: Time)

  datatype Delivery = Delivery(status: string, error: Option<string>)

  const PENDING_DELIVERY := Delivery("pending", None)

  datatype EventRow = EventRow(eventId: string, sessionId: string, position: nat, eventType: string, occurredAt: Time,
                               key: string, payload: map<string, Json>, delivery: Delivery)

  datatype MemoryRow = MemoryRow(sessionId: string, position: nat, role: string, text: string)

  datatype ReplyStatus = Waiting | Answered | Consumed

  datatype ReplyRow = ReplyRow(sessionId: string, question: string, message: Option<string>, status: ReplyStatus,
                               createdAt: Time)

  /** Tables with a natural key that is looked up are maps; the others are lists of rows. */
  datatype Tables = Tables(sessions: map<string, SessionRow>, events: seq<EventRow>, memory: seq<MemoryRow>,
                           replies: map<string, ReplyRow>)

  // ----- selecting rows

  function Filter<T>(rows: seq<T>, keep: T -> bool): seq<T> {
    if rows == [] then [] else (if keep(rows[0]) then [rows[0]] else []) + Filter(rows[1..], keep)
  }

  function EventsOf(rows: seq<EventRow>, sid: string): seq<EventRow> {
    Filter(rows, (r: EventRow) => r.sessionId == sid)
  }

  function EventsNotOf(rows: seq<EventRow>, sid: string): seq<EventRow> {
    Filter(rows, (r: EventRow) => r.sessionId != sid)
  }

  function MemoryOf(rows: seq<MemoryRow>, sid: string): seq<MemoryRow> {
    Filter(rows, (r: MemoryRow) => r.sessionId == sid)
  }

  function MemoryNotOf(rows: seq<MemoryRow>, sid: string): seq<MemoryRow> {
    Filter(rows, (r: MemoryRow) => r.sessionId != sid)
  }

  function ByPosition<T>(position: T -> nat): (T, T) -> bool {
    (a: T, b: T) => position(a) < position(b)
  }

  /** ORDER BY position. */
  function Ordered<T>(rows: seq<T>, position: T -> nat): seq<T> {
    StableSort.Sort(rows, ByPosition(position))
  }

  function EventPosition(r: EventRow): nat {
    r.position
  }

  function MemoryPosition(r: MemoryRow): nat {
    r.position
  }

  function EventsInOrder(rows: seq<EventRow>, sid: string): seq<EventRow> {
    Ordered(EventsOf(rows, sid), EventPosition)
  }

  function MemoryInOrder(rows: seq<MemoryRow>, sid: string): seq<MemoryRow> {
    Ordered(MemoryOf(rows, sid), MemoryPosition)
  }

  lemma OrderedIsSorted<T>(rows: seq<T>, position: T -> nat)
    requires forall i, j | 0 <= i < j < |rows| :: position(rows[i]) <= position(rows[j])
    ensures Ordered(rows, position) == rows
  {
    StableSort.SortOfSorted(rows, ByPosition(position));
  }

  lemma {:induction false} FilterAppend<T>(a: seq<T>, b: seq<T>, keep: T -> bool)
    ensures Filter(a + b, keep) == Filter(a, keep) + Filter(b, keep)
  {
    if a == [] {
      assert a + b == b;
    } else {
      assert (a + b)[1..] == a[1..] + b;
      FilterAppend(a[1..], b, keep);
      Associative(if keep(a[0]) then [a[0]] else [], Filter(a[1..], keep), Filter(b, keep));
    }
  }

  lemma {:induction false} FilterMembers<T>(rows: seq<T>, keep: T -> bool)
    ensures forall r :: r in Filter(rows, keep) <==> r in rows && keep(r)
  {
    if rows != [] {
      FilterMembers(rows[1..], keep);
    }
  }

  lemma {:induction false} FilterAll<T>(rows: seq<T>, keep: T -> bool)
    requires forall r | r in rows :: keep(r)
    ensures Filter(rows, keep) == rows
  {
    if rows != [] {
      FilterAll(rows[1..], keep);
    }
  }

  lemma {:induction false} FilterNone<T>(rows: seq<T>, keep: T -> bool)
    requires forall r | r in rows :: !keep(r)
    ensures Filter(rows, keep) == []
  {
    if rows != [] {
      assert rows[0] in rows;
      FilterNone(rows[1..], keep);
    }
  }

  /** Filtering by two conditions, one of which implies the other, is filtering by the stronger one. */
  lemma {:induction false} FilterFilter<T>(rows: seq<T>, first: T -> bool, second: T -> bool)
    requires forall r | r in rows && second(r) :: first(r)
    ensures Filter(Filter(rows, first), second) == Filter(rows, second)
  {
    if rows != [] {
      assert rows[0] in rows;
      FilterFilter(rows[1..], first, second);
      FilterAppend(if first(rows[0]) then [rows[0]] else [], Filter(rows[1..], first), second);
    }
  }

  // ----- writing events and memory: delete the session's rows, insert the state's

  /** The unique constraints of buyer_events. */
  predicate UniqueEvents(rows: seq<EventRow>) {
    forall i, j | 0 <= i < j < |rows| :: rows[i].eventId != rows[j].eventId && rows[i].key != rows[j].key
  }

  /** Delivery statuses by event id. */
  type Statuses = map<string, Delivery>

  /** The statuses recorded for the events of a session. */
  function StatusesOf(rows: seq<EventRow>, sid: string): Statuses {
    if rows == [] then map[]
    else
      var front, last := StatusesOf(rows[..|rows| - 1], sid), rows[|rows| - 1];
      if last.sessionId == sid then front[last.eventId := last.delivery] else front
  }

  /** An event that had no status is `pending`. */
  function StatusIn(read: Statuses, eventId: string): Delivery {
    if eventId in read then read[eventId] else PENDING_DELIVERY
  }

  function NewEventRow(read: Statuses, sid: string, e: Event, position: nat, z: Sanitizers): EventRow {
    EventRow(e.eventId, sid, position, e.eventType, e.occurredAt, e.key, z.payload(e.payload), StatusIn(read, e.eventId))
  }

  function NewEventRows(read: Statuses, sid: string, events: seq<Event>, z: Sanitizers): (r: seq<EventRow>)
    ensures |r| == |events|
    ensures forall i | 0 <= i < |events| :: r[i] == NewEventRow(read, sid, events[i], i, z)
  {
    if events == [] then []
    else
      var n := |events| - 1;
      NewEventRows(read, sid, events[..n], z) + [NewEventRow(read, sid, events[n], n, z)]
  }

  /** The session's rows are replaced, under the statuses that were read before. */
  function SyncedEvents(rows: seq<EventRow>, read: Statuses, sid: string, events: seq<Event>, z: Sanitizers): seq<EventRow> {
    EventsNotOf(rows, sid) + NewEventRows(read, sid, events, z)
  }

  function NewMemoryRows(sid: string, memory: seq<Memory>, z: Sanitizers): (r: seq<MemoryRow>)
    ensures |r| == |memory|
    ensures forall i | 0 <= i < |memory| :: r[i] == MemoryRow(sid, i, memory[i].role, z.text(memory[i].text))
  {
    if memory == [] then []
    else
      var n := |memory| - 1;
      NewMemoryRows(sid, memory[..n], z) + [MemoryRow(sid, n, memory[n].role, z.text(memory[n].text))]
  }

  function SyncedMemory(rows: seq<MemoryRow>, sid: string, memory: seq<Memory>, z: Sanitizers): seq<MemoryRow> {
    MemoryNotOf(rows, sid) + NewMemoryRows(sid, memory, z)
  }

  // ----- writing replies

  /** ORDER BY created_at DESC LIMIT 1 over the session's replies with one of these statuses. */
  ghost predicate IsLatest(replies: map<string, ReplyRow>, sid: string, statuses: set<ReplyStatus>, latest: Option<string>) {
    match latest
    case None => forall r | r in replies :: !(replies[r].sessionId == sid && replies[r].status in statuses)
    case Some(id) =>
      && id in replies && replies[id].sessionId == sid && replies[id].status in statuses
      && forall r | r in replies && replies[r].sessionId == sid && replies[r].status in statuses ::
           replies[r].createdAt <= replies[id].createdAt
  }

  function IsSetText(text: Option<string>): bool {
    text.Some? && text.value != ""
  }

  function QuestionText(s: Session): string {
    match s.waitingQuestion case Some(q) => q case None => ""
  }

  /** The reply statement for this state; `latest` is the waiting row that the subquery picked. */
  function SyncedReplies(replies: map<string, ReplyRow>, s: Session, latest: Option<string>, z: Sanitizers, now: Time)
    : map<string, ReplyRow>
    requires latest.Some? ==> latest.value in replies
  {
    if IsSetText(s.waitingReplyId) then
      var id := s.waitingReplyId.value;
      if id in replies
      then replies[id := replies[id].(question := QuestionText(s), status := Waiting, message := None)]
      else replies[id := ReplyRow(s.id, QuestionText(s), None, Waiting, now)]
    else if IsSetText(s.pendingReply) then
      if latest.None? then replies
      else replies[latest.value := replies[latest.value].(status := Answered, message := Some(z.text(s.pendingReply.value)))]
    else
      map r | r in replies ::
        if replies[r].sessionId == s.id && replies[r].status == Answered
        then replies[r].(status := Consumed) else replies[r]
  }

  function RowOf(s: Session): SessionRow {
    SessionRow(s.task, s.status, s.lastError, s.updatedAt)
  }

  /** ON CONFLICT leaves the creation time of an existing row alone. */
  function UpsertedSession(sessions: map<string, SessionRow>, s: Session): map<string, SessionRow> {
    var row := RowOf(s);
    sessions[s.id := if s.id in sessions
                     then row.(task := row.task.(createdAt := sessions[s.id].task.createdAt)) else row]
  }

  /** The transaction of `create_session` and `update_session`, committed; `read` are the statuses it began with. */
  ghost predicate Writes(db: Tables, read: Statuses, s: Session, z: Sanitizers, now: Time, db': Tables) {
    && UniqueEvents(SyncedEvents(db.events, read, s.id, s.events, z))
    && exists latest :: CommitsWith(db, read, s, z, now, latest, db')
  }

  ghost predicate CommitsWith(db: Tables, read: Statuses, s: Session, z: Sanitizers, now: Time, latest: Option<string>,
                              db': Tables)
  {
    && IsLatest(db.replies, s.id, {Waiting}, latest)
    && db' == Tables(UpsertedSession(db.sessions, s), SyncedEvents(db.events, read, s.id, s.events, z),
                     SyncedMemory(db.memory, s.id, s.memory, z), SyncedReplies(db.replies, s, latest, z, now))
  }

  // ----- loading

  function LoadedEvent(r: EventRow): Event {
    Event(r.eventId, r.sessionId, r.eventType, r.occurredAt, r.key, r.payload, None)
  }

  function LoadedEvents(rows: seq<EventRow>): (r: seq<Event>)
    ensures |r| == |rows|
    ensures forall i | 0 <= i < |rows| :: r[i] == LoadedEvent(rows[i])
  {
    if rows == [] then [] else LoadedEvents(rows[..|rows| - 1]) + [LoadedEvent(rows[|rows| - 1])]
  }

  function LoadedMemory(rows: seq<MemoryRow>): (r: seq<Memory>)
    ensures |r| == |rows|
    ensures forall i | 0 <= i < |rows| :: r[i] == Memory(rows[i].role, rows[i].text)
  {
    if rows == [] then []
    else LoadedMemory(rows[..|rows| - 1]) + [Memory(rows[|rows| - 1].role, rows[|rows| - 1].text)]
  }

  function LoadedSession(db: Tables, sid: string, latest: Option<string>): Session
    requires sid in db.sessions
    requires latest.Some? ==> latest.value in db.replies
  {
    var row := db.sessions[sid];
    var waiting := latest.Some? && db.replies[latest.value].status == Waiting;
    var answered := latest.Some? && db.replies[latest.value].status == Answered;
    Session(sid, row.task, None, row.status, row.updatedAt,
            if waiting then latest else None,
            if waiting then Some(db.replies[latest.value].question) else None,
            row.lastError,
            LoadedEvents(EventsInOrder(db.events, sid)), LoadedMemory(MemoryInOrder(db.memory, sid)),
            if answered then db.replies[latest.value].message else None)
  }

  /** What `_load_session` may return; the order of replies created at the same time is open. */
  ghost predicate Loads(db: Tables, sid: string, loaded: Option<Session>) {
    if sid !in db.sessions then loaded == None
    else
      exists latest ::
        && IsLatest(db.replies, sid, {Waiting, Answered}, latest)
        && loaded == Some(LoadedSession(db, sid, latest))
  }

  // ----- the repository

  class PostgresRepository {
    const z: Sanitizers
    var sessions: map<string, SessionRow>
    var events: seq<EventRow>
    var memory: seq<MemoryRow>
    var replies: map<string, ReplyRow>

    ghost function View(): Tables
      reads this
    {
      Tables(sessions, events, memory, replies)
    }

    constructor (z: Sanitizers)
      ensures this.z == z && View() == Tables(map[], [], [], map[])
    {
      this.z := z;
      sessions, events, memory, replies := map[], [], [], map[];
    }

    /** The row that a query ordered by creation time, newest first, returns first. */
    method FindLatest(sid: string, statuses: set<ReplyStatus>) returns (latest: Option<string>)
      ensures IsLatest(replies, sid, statuses, latest)
    {
      latest := None;
      var todo := replies.Keys;
      while todo != {}
        invariant todo <= replies.Keys
        invariant IsLatest(map r | r in replies.Keys - todo :: replies[r], sid, statuses, latest)
        decreases |todo|
      {
        var id :| id in todo;
        todo := todo - {id};
        var row := replies[id];
        if row.sessionId == sid && row.status in statuses
           && (latest.None? || replies[latest.value].createdAt <= row.createdAt) {
          latest := Some(id);
        }
      }
      assert (map r | r in replies.Keys - todo :: replies[r]) == replies;
    }

    /** Inserts the rows of `events` one by one; a unique constraint may stop it half way. */
    method InsertEvents(kept: seq<EventRow>, read: Statuses, s: Session)
      returns (rows: seq<EventRow>, ok: bool)
      requires UniqueEvents(kept)
      ensures ok <==> UniqueEvents(kept + NewEventRows(read, s.id, s.events, z))
      ensures ok ==> rows == kept + NewEventRows(read, s.id, s.events, z)
    {
      rows := kept;
      ghost var all := NewEventRows(read, s.id, s.events, z);
      for i := 0 to |s.events|
        invariant rows == kept + all[..i]
        invariant UniqueEvents(rows)
      {
        var row := NewEventRow(read, s.id, s.events[i], i, z);
        if exists k | 0 <= k < |rows| :: rows[k].eventId == row.eventId || rows[k].key == row.key {
          assert (kept + all)[|rows|] == row;
          assert forall k | 0 <= k < |rows| :: (kept + all)[k] == rows[k];
          return rows, false;
        }
        rows := rows + [row];
      }
      assert all[..|s.events|] == all;
      return rows, true;
    }

    method SyncReplies(s: Session, now: Time)
      modifies this`replies
      ensures exists latest ::
        IsLatest(old(replies), s.id, {Waiting}, latest) && replies == SyncedReplies(old(replies), s, latest, z, now)
    {
      var latest := FindLatest(s.id, {Waiting});
      if IsSetText(s.waitingReplyId) {
        var id := s.waitingReplyId.value;
        var row := if id in replies then replies[id] else ReplyRow(s.id, "", None, Waiting, now);
        replies := replies[id := row.(question := QuestionText(s), status := Waiting, message := None)];
      } else if IsSetText(s.pendingReply) {
        if latest.Some? {
          var row := replies[latest.value];
          replies := replies[latest.value := row.(status := Answered, message := Some(z.text(s.pendingReply.value)))];
        }
      } else {
        replies := map r | r in replies ::
          if replies[r].sessionId == s.id && replies[r].status == Answered
          then replies[r].(status := Consumed) else replies[r];
      }
      assert replies == SyncedReplies(old(replies), s, latest, z, now);
    }

    /** The first statement of `_sync_session_related`. */
    method ReadStatuses(sid: string) returns (read: Statuses)
      ensures read == StatusesOf(events, sid)
    {
      read := map[];
      for i := 0 to |events|
        invariant read == StatusesOf(events[..i], sid)
      {
        assert events[..i + 1][..i] == events[..i];
        if events[i].sessionId == sid {
          read := read[events[i].eventId := events[i].delivery];
        }
      }
      assert events[..|events|] == events;
    }

    /**
     * The rest of the transaction, undone if an event row collides. Delivery marks take no lock, so some
     * may have landed since `read` was read.
     */
    method RewriteSession(s: Session, read: Statuses, now: Time) returns (ok: bool)
      requires UniqueEvents(events)
      modifies this
      ensures ok <==> UniqueEvents(SyncedEvents(old(events), read, s.id, s.events, z))
      ensures if ok then Writes(old(View()), read, s, z, now, View()) else View() == old(View())
    {
      FilterUnique(events, s.id);
      var kept := EventsNotOf(events, s.id);
      var rows, inserted := InsertEvents(kept, read, s);
      if !inserted {
        return false;
      }
      sessions := UpsertedSession(sessions, s);
      events := rows;
      memory := SyncedMemory(memory, s.id, s.memory, z);
      SyncReplies(s, now);
      ghost var latest :| IsLatest(old(replies), s.id, {Waiting}, latest)
        && replies == SyncedReplies(old(replies), s, latest, z, now);
      assert CommitsWith(old(View()), read, s, z, now, latest, View());
      return true;
    }

    /** `create_session` and `update_session`, if no mark lands inside. */
    method UpdateSession(s: Session, now: Time) returns (ok: bool)
      requires UniqueEvents(events)
      modifies this
      ensures ok <==> UniqueEvents(SyncedEvents(old(events), StatusesOf(old(events), s.id), s.id, s.events, z))
      ensures if ok then Writes(old(View()), StatusesOf(old(events), s.id), s, z, now, View()) else View() == old(View())
    {
      var read := ReadStatuses(s.id);
      ok := RewriteSession(s, read, now);
    }

    method LoadSession(sid: string) returns (loaded: Option<Session>)
      ensures Loads(View(), sid, loaded)
    {
      if sid !in sessions {
        return None;
      }
      var row := sessions[sid];
      var loadedEvents := LoadedEvents(EventsInOrder(events, sid));
      var loadedMemory := LoadedMemory(MemoryInOrder(memory, sid));
      var latest := FindLatest(sid, {Waiting, Answered});
      var waitingReplyId: Option<string>, waitingQuestion: Option<string> := None, None;
      var pendingReply: Option<string> := None;
      if latest.Some? && replies[latest.value].status == Waiting {
        waitingReplyId, waitingQuestion := latest, Some(replies[latest.value].question);
      } else if latest.Some? && replies[latest.value].status == Answered {
        pendingReply := replies[latest.value].message;
      }
      loaded := Some(Session(sid, row.task, None, row.status, row.updatedAt, waitingReplyId, waitingQuestion,
                             row.lastError, loadedEvents, loadedMemory, pendingReply));
      assert loaded == Some(LoadedSession(View(), sid, latest));
    }

    method MarkEventDelivery(eventId: string, delivery: Delivery)
      modifies this`events
      ensures View() == MarkedDelivery(old(View()), eventId, delivery)
    {
      events := Marked(events, eventId, delivery);
    }

    /** Deleting a session deletes its events, memory and replies with it. */
    method DeleteSessions(ids: set<string>)
      modifies this
      ensures View() == Deleted(old(View()), ids)
    {
      sessions := sessions - ids;
      events := Filter(events, (r: EventRow) => r.sessionId !in ids);
      memory := Filter(memory, (r: MemoryRow) => r.sessionId !in ids);
      replies := map r | r in replies && replies[r].sessionId !in ids :: replies[r];
    }
  }

  function Marked(rows: seq<EventRow>, eventId: string, delivery: Delivery): (r: seq<EventRow>)
    ensures |r| == |rows|
    ensures forall i | 0 <= i < |rows| :: r[i] == if rows[i].eventId == eventId then rows[i].(delivery := delivery) else rows[i]
  {
    if rows == [] then []
    else
      [if rows[0].eventId == eventId then rows[0].(delivery := delivery) else rows[0]]
      + Marked(rows[1..], eventId, delivery)
  }

  function MarkedDelivery(db: Tables, eventId: string, delivery: Delivery): Tables {
    db.(events := Marked(db.events, eventId, delivery))
  }

  function Deleted(db: Tables, ids: set<string>): Tables {
    Tables(db.sessions - ids,
           Filter(db.events, (r: EventRow) => r.sessionId !in ids),
           Filter(db.memory, (r: MemoryRow) => r.sessionId !in ids),
           map r | r in db.replies && db.replies[r].sessionId !in ids :: db.replies[r])
  }

  lemma {:induction false} FilterUniqueRows(rows: seq<EventRow>, keep: EventRow -> bool)
    requires UniqueEvents(rows)
    ensures UniqueEvents(Filter(rows, keep))
  {
    if rows != [] {
      FilterUniqueRows(rows[1..], keep);
      FilterMembers(rows[1..], keep);
      var rest := Filter(rows[1..], keep);
      forall j | 0 <= j < |rest|
        ensures rest[j].eventId != rows[0].eventId && rest[j].key != rows[0].key
      {
        assert rest[j] in rest;
        var k :| 0 <= k < |rows[1..]| && rows[1..][k] == rest[j];
        assert rows[k + 1] == rest[j];
      }
    }
  }

  lemma FilterUnique(rows: seq<EventRow>, sid: string)
    requires UniqueEvents(rows)
    ensures UniqueEvents(EventsNotOf(rows, sid))
  {
    FilterUniqueRows(rows, (r: EventRow) => r.sessionId != sid);
  }
}
