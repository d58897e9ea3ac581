/**
 * The database repository behaves like the in-memory dictionary: after any sequence of store
 * operations a load returns the in-memory session in its sanitised form.
 */
module PostgresRefinement {
  import opened Common
  import opened Sanitizer
  import opened Sessions
  import opened Postgres

  // ----- the refinement relation

  predicate SessionOk(s: Session) {
    && (s.waitingReplyId.Some? <==> s.waitingQuestion.Some?)
    && s.waitingReplyId != Some("") && s.pendingReply != Some("")
    && !(s.waitingReplyId.Some? && s.pendingReply.Some?)
    && forall i | 0 <= i < |s.events| :: s.events[i].sessionId == s.id
  }

  ghost predicate EventsMatch(rows: seq<EventRow>, s: Session, z: Sanitizers) {
    var mine := EventsOf(rows, s.id);
    && |mine| == |s.events|
    && forall i | 0 <= i < |mine| :: mine[i].position == i && LoadedEvent(mine[i]) == z.Event(s.events[i])
  }

  ghost predicate MemoryMatch(rows: seq<MemoryRow>, s: Session, z: Sanitizers) {
    MemoryOf(rows, s.id) == NewMemoryRows(s.id, s.memory, z)
  }

  predicate IsActive(replies: map<string, ReplyRow>, sid: string, r: string) {
    r in replies && replies[r].sessionId == sid && replies[r].status in {Waiting, Answered}
  }

  /** The session has at most one reply row that is waiting or answered. */
  ghost predicate OneActive(replies: map<string, ReplyRow>, sid: string) {
    forall a, b | IsActive(replies, sid, a) && IsActive(replies, sid, b) :: a == b
  }

  /** The active row, if any, is the session's open question or its unread answer. */
  ghost predicate RepliesMatch(replies: map<string, ReplyRow>, s: Session, z: Sanitizers) {
    && OneActive(replies, s.id)
    && (s.waitingReplyId.Some? ==> IsActive(replies, s.id, s.waitingReplyId.value))
    && (s.pendingReply.Some? ==> exists r :: IsActive(replies, s.id, r))
    && forall r | IsActive(replies, s.id, r) ::
         if replies[r].status == Waiting
         then s.waitingReplyId == Some(r) && s.waitingQuestion == Some(replies[r].question)
         else s.pendingReply.Some? && replies[r].message == Some(z.text(s.pendingReply.value))
  }

  ghost predicate SessionMatches(db: Tables, s: Session, z: Sanitizers) {
    && SessionOk(s)
    && s.id in db.sessions && db.sessions[s.id] == RowOf(s)
    && EventsMatch(db.events, s, z)
    && MemoryMatch(db.memory, s, z)
    && RepliesMatch(db.replies, s, z)
  }

  ghost predicate AllMatch(mem: map<string, Session>, db: Tables, z: Sanitizers) {
    forall sid | sid in mem :: mem[sid].id == sid && SessionMatches(db, mem[sid], z)
  }

  ghost predicate Refines(mem: map<string, Session>, db: Tables, z: Sanitizers) {
    && mem.Keys == db.sessions.Keys
    && AllMatch(mem, db, z)
    && UniqueEvents(db.events)
    && forall r | r in db.replies :: db.replies[r].sessionId in mem
  }

  // ----- loading

  lemma EventsLoad(rows: seq<EventRow>, s: Session, z: Sanitizers)
    requires EventsMatch(rows, s, z)
    ensures LoadedEvents(EventsInOrder(rows, s.id)) == z.Events(s.events)
  {
    OrderedIsSorted(EventsOf(rows, s.id), EventPosition);
  }

  lemma MemoryLoads(rows: seq<MemoryRow>, s: Session, z: Sanitizers)
    requires MemoryMatch(rows, s, z)
    ensures LoadedMemory(MemoryInOrder(rows, s.id)) == z.Memories(s.memory)
  {
    OrderedIsSorted(MemoryOf(rows, s.id), MemoryPosition);
  }

  lemma MatchLoads(db: Tables, s: Session, z: Sanitizers, latest: Option<string>)
    requires SessionMatches(db, s, z)
    requires IsLatest(db.replies, s.id, {Waiting, Answered}, latest)
    ensures LoadedSession(db, s.id, latest) == z.Session(s)
  {
    EventsLoad(db.events, s, z);
    MemoryLoads(db.memory, s, z);
    if latest.Some? {
      assert IsActive(db.replies, s.id, latest.value);
    }
  }

  /** A load returns the sanitised in-memory session, or nothing if there is none. */
  lemma LoadAgrees(mem: map<string, Session>, db: Tables, z: Sanitizers, sid: string, loaded: Option<Session>)
    requires Refines(mem, db, z) && Loads(db, sid, loaded)
    ensures loaded == if sid in mem then Some(z.Session(mem[sid])) else None
  {
    if sid in mem {
      var latest :| IsLatest(db.replies, sid, {Waiting, Answered}, latest) && loaded == Some(LoadedSession(db, sid, latest));
      MatchLoads(db, mem[sid], z, latest);
    }
  }

  // ----- the rows of a session after a write

  lemma EventRowsAfterWrite(rows: seq<EventRow>, read: Statuses, sid: string, events: seq<Event>, other: string, z: Sanitizers)
    ensures EventsOf(SyncedEvents(rows, read, sid, events, z), other)
         == if other == sid then NewEventRows(read, sid, events, z) else EventsOf(rows, other)
  {
    var mine, notMine := (r: EventRow) => r.sessionId == other, (r: EventRow) => r.sessionId != sid;
    var added := NewEventRows(read, sid, events, z);
    FilterAppend(EventsNotOf(rows, sid), added, mine);
    if other == sid {
      FilterMembers(rows, notMine);
      FilterNone(EventsNotOf(rows, sid), mine);
      FilterAll(added, mine);
    } else {
      FilterFilter(rows, notMine, mine);
      FilterNone(added, mine);
    }
  }

  lemma MemoryRowsAfterWrite(rows: seq<MemoryRow>, sid: string, memory: seq<Memory>, other: string, z: Sanitizers)
    ensures MemoryOf(SyncedMemory(rows, sid, memory, z), other)
         == if other == sid then NewMemoryRows(sid, memory, z) else MemoryOf(rows, other)
  {
    var mine, notMine := (r: MemoryRow) => r.sessionId == other, (r: MemoryRow) => r.sessionId != sid;
    var added := NewMemoryRows(sid, memory, z);
    FilterAppend(MemoryNotOf(rows, sid), added, mine);
    if other == sid {
      FilterMembers(rows, notMine);
      FilterNone(MemoryNotOf(rows, sid), mine);
      FilterAll(added, mine);
    } else {
      FilterFilter(rows, notMine, mine);
      FilterNone(added, mine);
    }
  }

  // ----- replies after a write

  /** How a store operation may move the open question and the unread answer of a session. */
  predicate ReplyMove(replies: map<string, ReplyRow>, s: Session, t: Session) {
    || (t.waitingReplyId == s.waitingReplyId && t.waitingQuestion == s.waitingQuestion && t.pendingReply == s.pendingReply)
    || (s.waitingReplyId == None && s.pendingReply == None && t.waitingReplyId.Some? && t.waitingReplyId.value !in replies)
    || (s.waitingReplyId.Some? && t.waitingReplyId == None && t.pendingReply.Some?)
    || (s.pendingReply.Some? && t.waitingReplyId == None && t.pendingReply == None)
  }

  /** Two forms of a session that are stored alike. */
  predicate StoredAlike(t: Session, u: Session, z: Sanitizers) {
    z.Session(t) == z.Session(u)
  }

  lemma RepliesOfSelf(replies: map<string, ReplyRow>, s: Session, t: Session, u: Session, latest: Option<string>,
                      z: Sanitizers, now: Time)
    requires z.Valid() && SessionOk(s) && SessionOk(t) && s.id == t.id && StoredAlike(t, u, z)
    requires RepliesMatch(replies, s, z) && ReplyMove(replies, s, t)
    requires IsLatest(replies, s.id, {Waiting}, latest)
    ensures RepliesMatch(SyncedReplies(replies, u, latest, z, now), t, z)
  {
    var replies' := SyncedReplies(replies, u, latest, z, now);
    assert u.id == t.id && u.waitingReplyId == t.waitingReplyId && u.waitingQuestion == t.waitingQuestion;
    assert z.Reply(u.pendingReply) == z.Reply(t.pendingReply);
    assert latest.Some? ==> IsActive(replies, s.id, latest.value);
    if IsSetText(t.waitingReplyId) {
      assert IsActive(replies', t.id, t.waitingReplyId.value);
      forall r | IsActive(replies', t.id, r)
        ensures r == t.waitingReplyId.value
      {
        assert r != t.waitingReplyId.value ==> IsActive(replies, s.id, r);
      }
    } else if IsSetText(t.pendingReply) {
      if s.waitingReplyId.Some? {
        assert latest == s.waitingReplyId;
        assert IsActive(replies', t.id, latest.value);
        forall r | IsActive(replies', t.id, r)
          ensures r == latest.value
        {
          assert IsActive(replies, s.id, r);
        }
      } else {
        assert replies' == replies;
      }
    } else {
      forall r | IsActive(replies', t.id, r)
        ensures false
      {
        assert IsActive(replies, s.id, r);
      }
    }
  }

  lemma RepliesOfFresh(replies: map<string, ReplyRow>, t: Session, u: Session, latest: Option<string>, z: Sanitizers, now: Time)
    requires z.Valid() && SessionOk(t) && StoredAlike(t, u, z)
    requires t.waitingReplyId == None && t.pendingReply == None
    requires forall r | r in replies :: replies[r].sessionId != t.id
    requires IsLatest(replies, u.id, {Waiting}, latest)
    ensures RepliesMatch(SyncedReplies(replies, u, latest, z, now), t, z)
  {
    assert u.id == t.id && u.waitingReplyId == t.waitingReplyId && z.Reply(u.pendingReply) == z.Reply(t.pendingReply);
  }

  /** The reply statement only touches rows of the session it is run for. */
  lemma RepliesOfOthers(replies: map<string, ReplyRow>, u: Session, latest: Option<string>, z: Sanitizers, now: Time)
    requires IsLatest(replies, u.id, {Waiting}, latest)
    requires IsSetText(u.waitingReplyId) && u.waitingReplyId.value in replies
         ==> replies[u.waitingReplyId.value].sessionId == u.id
    ensures var replies' := SyncedReplies(replies, u, latest, z, now);
      && (forall r | r in replies && replies[r].sessionId != u.id :: r in replies' && replies'[r] == replies[r])
      && (forall r | r in replies' && replies'[r].sessionId != u.id :: r in replies && replies'[r] == replies[r])
  {
  }

  lemma RepliesKeepMatching(replies: map<string, ReplyRow>, replies': map<string, ReplyRow>, s: Session, z: Sanitizers)
    requires RepliesMatch(replies, s, z)
    requires forall r | r in replies && replies[r].sessionId == s.id :: r in replies' && replies'[r] == replies[r]
    requires forall r | r in replies' && replies'[r].sessionId == s.id :: r in replies && replies'[r] == replies[r]
    ensures RepliesMatch(replies', s, z)
  {
    assert forall r :: IsActive(replies', s.id, r) <==> IsActive(replies, s.id, r);
  }

  // ----- one write refines one assignment

  /** The session written as `u` is the one kept in memory as `t`, and comes from what was there before. */
  ghost predicate GoodWrite(mem: map<string, Session>, db: Tables, t: Session, u: Session, z: Sanitizers) {
    && SessionOk(t) && StoredAlike(t, u, z)
    && if t.id in mem then t.task == mem[t.id].task && ReplyMove(db.replies, mem[t.id], t)
       else t.waitingReplyId == None && t.pendingReply == None
  }

  lemma EventsMatchSelf(rows: seq<EventRow>, read: Statuses, t: Session, u: Session, z: Sanitizers)
    requires StoredAlike(t, u, z) && SessionOk(t)
    ensures EventsMatch(SyncedEvents(rows, read, u.id, u.events, z), t, z)
  {
    assert z.Events(u.events) == z.Events(t.events);
    EventRowsAfterWrite(rows, read, u.id, u.events, t.id, z);
    forall i | 0 <= i < |u.events|
      ensures z.Event(u.events[i]) == z.Event(t.events[i])
    {
      assert z.Events(u.events)[i] == z.Events(t.events)[i];
    }
    forall i | 0 <= i < |t.events|
      ensures LoadedEvent(NewEventRow(read, t.id, u.events[i], i, z)) == z.Event(t.events[i])
    {
      assert z.Event(t.events[i]).sessionId == t.id;
    }
  }

  lemma MemoryMatchSelf(rows: seq<MemoryRow>, t: Session, u: Session, z: Sanitizers)
    requires StoredAlike(t, u, z)
    ensures MemoryMatch(SyncedMemory(rows, u.id, u.memory, z), t, z)
  {
    assert z.Memories(u.memory) == z.Memories(t.memory);
    MemoryRowsAfterWrite(rows, u.id, u.memory, t.id, z);
    forall i | 0 <= i < |u.memory|
      ensures z.Memory(u.memory[i]) == z.Memory(t.memory[i])
    {
      assert z.Memories(u.memory)[i] == z.Memories(t.memory)[i];
    }
    assert NewMemoryRows(u.id, u.memory, z) == NewMemoryRows(t.id, t.memory, z);
  }

  lemma WriteMatchesSelf(mem: map<string, Session>, db: Tables, read: Statuses, t: Session, u: Session, latest: Option<string>,
                         z: Sanitizers, now: Time, db': Tables)
    requires z.Valid() && Refines(mem, db, z) && GoodWrite(mem, db, t, u, z)
    requires CommitsWith(db, read, u, z, now, latest, db')
    ensures SessionMatches(db', t, z)
  {
    assert u.id == t.id && RowOf(u) == RowOf(t);
    EventsMatchSelf(db.events, read, t, u, z);
    MemoryMatchSelf(db.memory, t, u, z);
    if t.id in mem {
      RepliesOfSelf(db.replies, mem[t.id], t, u, latest, z, now);
    } else {
      RepliesOfFresh(db.replies, t, u, latest, z, now);
    }
  }

  lemma WriteMatchesOther(mem: map<string, Session>, db: Tables, read: Statuses, t: Session, u: Session, latest: Option<string>,
                          z: Sanitizers, now: Time, db': Tables, sid: string)
    requires Refines(mem, db, z) && GoodWrite(mem, db, t, u, z)
    requires CommitsWith(db, read, u, z, now, latest, db')
    requires sid in mem && sid != u.id
    ensures SessionMatches(db', mem[sid], z)
  {
    EventRowsAfterWrite(db.events, read, u.id, u.events, sid, z);
    MemoryRowsAfterWrite(db.memory, u.id, u.memory, sid, z);
    OwnQuestion(mem, db, t, u, z);
    RepliesOfOthers(db.replies, u, latest, z, now);
    RepliesKeepMatching(db.replies, db'.replies, mem[sid], z);
  }

  lemma OwnQuestion(mem: map<string, Session>, db: Tables, t: Session, u: Session, z: Sanitizers)
    requires Refines(mem, db, z) && GoodWrite(mem, db, t, u, z)
    ensures IsSetText(u.waitingReplyId) && u.waitingReplyId.value in db.replies
         ==> db.replies[u.waitingReplyId.value].sessionId == u.id
  {
    assert u.id == t.id && u.waitingReplyId == t.waitingReplyId;
    if IsSetText(u.waitingReplyId) && u.waitingReplyId.value in db.replies {
      assert IsActive(db.replies, t.id, u.waitingReplyId.value);
    }
  }

  lemma RepliesStayOwned(mem: map<string, Session>, db: Tables, t: Session, u: Session, latest: Option<string>,
                         z: Sanitizers, now: Time)
    requires Refines(mem, db, z) && GoodWrite(mem, db, t, u, z)
    requires IsLatest(db.replies, u.id, {Waiting}, latest)
    ensures var replies' := SyncedReplies(db.replies, u, latest, z, now);
      forall r | r in replies' :: replies'[r].sessionId in mem.Keys + {u.id}
  {
    OwnQuestion(mem, db, t, u, z);
    RepliesOfOthers(db.replies, u, latest, z, now);
  }

  lemma AllMatchAfterWrite(mem: map<string, Session>, db: Tables, read: Statuses, t: Session, u: Session, latest: Option<string>,
                           z: Sanitizers, now: Time, db': Tables)
    requires z.Valid() && Refines(mem, db, z) && GoodWrite(mem, db, t, u, z)
    requires CommitsWith(db, read, u, z, now, latest, db')
    ensures AllMatch(mem[t.id := t], db', z)
  {
    assert u.id == t.id;
    var mem' := mem[t.id := t];
    forall sid | sid in mem'
      ensures mem'[sid].id == sid && SessionMatches(db', mem'[sid], z)
    {
      if sid == t.id {
        WriteMatchesSelf(mem, db, read, t, u, latest, z, now, db');
      } else {
        WriteMatchesOther(mem, db, read, t, u, latest, z, now, db', sid);
      }
    }
  }

  lemma WriteRefines(mem: map<string, Session>, db: Tables, read: Statuses, t: Session, u: Session, z: Sanitizers, now: Time, db': Tables)
    requires z.Valid() && Refines(mem, db, z) && GoodWrite(mem, db, t, u, z)
    requires Writes(db, read, u, z, now, db')
    ensures Refines(mem[t.id := t], db', z)
  {
    var latest :| CommitsWith(db, read, u, z, now, latest, db');
    assert u.id == t.id;
    AllMatchAfterWrite(mem, db, read, t, u, latest, z, now, db');
    RepliesStayOwned(mem, db, t, u, latest, z, now);
    WriteKeepsKeys(mem, db, u, t);
  }

  lemma WriteKeepsKeys(mem: map<string, Session>, db: Tables, u: Session, t: Session)
    requires mem.Keys == db.sessions.Keys && u.id == t.id
    ensures mem[t.id := t].Keys == UpsertedSession(db.sessions, u).Keys == mem.Keys + {u.id}
  {
  }

  // ----- store operations on both repositories

  /** What reaches the repositories; `Read` is the first statement of a write, before it touches any row. */
  datatype Call =
    | Create(s: Session)
    | On(sid: string, op: StoreOp)
    | Delete(ids: set<string>)
    | Read(sid: string)
    | Mark(eventId: string, delivery: Delivery)

  /** The in-memory repository keeps a copy of every session under its id. */
  function MemStep(mem: map<string, Session>, call: Call, now: Time): map<string, Session> {
    match call
    case Create(s) => mem[s.id := s]
    case On(sid, op) =>
      if sid !in mem then mem
      else (match Change(mem[sid], op, now) case Ok(t) => mem[sid := t] case Err(_) => mem)
    case Delete(ids) => mem - ids
    case Read(_) => mem
    case Mark(_, _) => mem
  }

  /** The tables, and the statuses that the write now under way has read for a session. */
  datatype Store = Store(db: Tables, read: Option<(string, Statuses)>)

  predicate HasRead(x: Store, sid: string) {
    x.read.Some? && x.read.value.0 == sid
  }

  /**
   * The database repository loads the session, changes it and writes it back. The store's lock keeps its
   * operations apart; only marks take no lock and may land between the read and the rest of a write.
   */
  ghost predicate DbStep(x: Store, call: Call, z: Sanitizers, now: Time, y: Store) {
    match call
    case Create(s) => HasRead(x, s.id) && y.read == None && Writes(x.db, x.read.value.1, s, z, now, y.db)
    case On(sid, op) => exists loaded :: Loads(x.db, sid, loaded) && Updates(x, sid, loaded, op, z, now, y)
    case Delete(ids) => x.read == None && y == Store(Deleted(x.db, ids), None)
    case Read(sid) => x.read == None && y == Store(x.db, Some((sid, StatusesOf(x.db.events, sid))))
    case Mark(eventId, delivery) => y == x.(db := MarkedDelivery(x.db, eventId, delivery))
  }

  /** A refused operation writes nothing, so it reads no statuses either. */
  ghost predicate Updates(x: Store, sid: string, loaded: Option<Session>, op: StoreOp, z: Sanitizers, now: Time, y: Store) {
    if loaded.Some? && Change(loaded.value, op, now).Ok? then
      && HasRead(x, sid) && y.read == None
      && Writes(x.db, x.read.value.1, Change(loaded.value, op, now).value, z, now, y.db)
    else x.read == None && y == x
  }

  predicate IsFreshEvent(rows: seq<EventRow>, e: Event) {
    forall i | 0 <= i < |rows| :: rows[i].eventId != e.eventId && rows[i].key != e.key
  }

  /**
   * What the callers of the store see to: new sessions, questions and events have new ids, an
   * answer is not empty, and a question is asked only when none is open and no answer is unread.
   */
  predicate Allowed(mem: map<string, Session>, db: Tables, call: Call) {
    match call
    case Create(s) =>
      s.id !in mem && s.waitingReplyId == None && s.waitingQuestion == None && s.pendingReply == None
      && s.events == []
    case On(sid, op) =>
      sid in mem ==>
        (match op
         case SetWaitingQuestion(_, id) =>
           mem[sid].waitingReplyId == None && mem[sid].pendingReply == None && id != "" && id !in db.replies
         case ApplyReply(_, message, _) => message != ""
         case AppendEvent(e) => e.sessionId == sid && IsFreshEvent(db.events, e)
         case _ => true)
    case _ => true
  }

  lemma ChangeKeepsSession(mem: map<string, Session>, db: Tables, s: Session, op: StoreOp, now: Time)
    requires SessionOk(s) && s.id in mem && mem[s.id] == s && Allowed(mem, db, On(s.id, op))
    ensures match Change(s, op, now)
            case Ok(t) => t.id == s.id && t.task == s.task && SessionOk(t) && ReplyMove(db.replies, s, t)
            case Err(_) => true
  {
  }

  lemma ChangeIsGoodWrite(mem: map<string, Session>, db: Tables, sid: string, op: StoreOp, z: Sanitizers, now: Time)
    requires z.Valid() && Refines(mem, db, z) && Allowed(mem, db, On(sid, op)) && sid in mem
    ensures match (Change(mem[sid], op, now), Change(z.Session(mem[sid]), op, now))
            case (Ok(t), Ok(u)) => t.id == sid && GoodWrite(mem, db, t, u, z)
            case (Err(_), Err(_)) => true
            case _ => false
  {
    ChangeKeepsSession(mem, db, mem[sid], op, now);
    ChangeCommutesWithStored(mem[sid], op, now, z);
  }

  lemma UniqueConcat(a: seq<EventRow>, b: seq<EventRow>)
    requires UniqueEvents(a) && UniqueEvents(b)
    requires forall x, y | x in a && y in b :: x.eventId != y.eventId && x.key != y.key
    ensures UniqueEvents(a + b)
  {
    forall i, j | 0 <= i < j < |a + b|
      ensures (a + b)[i].eventId != (a + b)[j].eventId && (a + b)[i].key != (a + b)[j].key
    {
      if i < |a| <= j {
        assert a[i] in a && b[j - |a|] in b;
      }
    }
  }

  /** The ids of a row, which is all the unique constraints look at. */
  predicate SameIds(a: EventRow, b: EventRow) {
    a.eventId == b.eventId && a.key == b.key
  }

  /** The row was there before, under the same ids, or carries the ids of the new event. */
  lemma WrittenRowIds(mem: map<string, Session>, db: Tables, read: Statuses, u: Session, before: seq<Event>, e: Option<Event>,
                      z: Sanitizers, i: nat)
    requires Refines(mem, db, z)
    requires u.id in mem && before == mem[u.id].events
    requires z.Events(u.events) == z.Events(before + if e.Some? then [e.value] else [])
    requires i < |u.events|
    ensures var row := NewEventRow(read, u.id, u.events[i], i, z);
      if i < |before|
      then i < |EventsOf(db.events, u.id)| && SameIds(row, EventsOf(db.events, u.id)[i])
      else e.Some? && i == |before| && row.eventId == e.value.eventId && row.key == e.value.key
  {
    var target := before + if e.Some? then [e.value] else [];
    assert |z.Events(u.events)| == |z.Events(target)|;
    assert z.Event(u.events[i]) == z.Events(u.events)[i] == z.Event(target[i]);
    if i < |before| {
      assert LoadedEvent(EventsOf(db.events, u.id)[i]) == z.Event(before[i]);
    }
  }

  lemma UniqueTellsApart(rows: seq<EventRow>, x: EventRow, y: EventRow)
    requires UniqueEvents(rows) && x in rows && y in rows && x != y
    ensures x.eventId != y.eventId && x.key != y.key
  {
    var a :| 0 <= a < |rows| && rows[a] == x;
    var b :| 0 <= b < |rows| && rows[b] == y;
  }

  /** What `WrittenRowIds` says, for all written rows at once. */
  ghost predicate IdsKnown(mine: seq<EventRow>, added: seq<EventRow>, n: nat, e: Option<Event>) {
    |mine| == n && forall i | 0 <= i < |added| :: IdKnown(mine, added[i], n, e, i)
  }

  predicate IdKnown(mine: seq<EventRow>, row: EventRow, n: nat, e: Option<Event>, i: nat)
    requires |mine| == n
  {
    if i < n then SameIds(row, mine[i])
    else e.Some? && i == n && row.eventId == e.value.eventId && row.key == e.value.key
  }

  lemma AddedRowsUnique(mine: seq<EventRow>, added: seq<EventRow>, n: nat, e: Option<Event>)
    requires IdsKnown(mine, added, n, e) && UniqueEvents(mine)
    requires e.Some? ==> IsFreshEvent(mine, e.value)
    ensures UniqueEvents(added)
  {
    forall i, j | 0 <= i < j < |added|
      ensures added[i].eventId != added[j].eventId && added[i].key != added[j].key
    {
      assert IdKnown(mine, added[i], n, e, i) && IdKnown(mine, added[j], n, e, j);
    }
  }

  lemma AddedRowsApart(rows: seq<EventRow>, mine: seq<EventRow>, added: seq<EventRow>, n: nat, e: Option<Event>, x: EventRow, i: nat)
    requires IdsKnown(mine, added, n, e) && UniqueEvents(rows)
    requires forall r | r in mine :: r in rows && r != x
    requires e.Some? ==> IsFreshEvent(rows, e.value)
    requires x in rows && i < |added|
    ensures x.eventId != added[i].eventId && x.key != added[i].key
  {
    assert IdKnown(mine, added[i], n, e, i);
    if i < n {
      assert mine[i] in mine;
      UniqueTellsApart(rows, x, mine[i]);
    }
  }

  lemma RowsStayUnique(rows: seq<EventRow>, sid: string, added: seq<EventRow>, n: nat, e: Option<Event>)
    requires UniqueEvents(rows) && IdsKnown(EventsOf(rows, sid), added, n, e)
    requires e.Some? ==> IsFreshEvent(rows, e.value)
    ensures UniqueEvents(EventsNotOf(rows, sid) + added)
  {
    var kept, mine := EventsNotOf(rows, sid), EventsOf(rows, sid);
    FilterUnique(rows, sid);
    FilterUniqueRows(rows, (r: EventRow) => r.sessionId == sid);
    FilterMembers(rows, (r: EventRow) => r.sessionId == sid);
    FilterMembers(rows, (r: EventRow) => r.sessionId != sid);
    assert e.Some? ==> IsFreshEvent(mine, e.value) by {
      assert forall i | 0 <= i < |mine| :: mine[i] in mine;
    }
    AddedRowsUnique(mine, added, n, e);
    forall x, y | x in kept && y in added
      ensures x.eventId != y.eventId && x.key != y.key
    {
      var i :| 0 <= i < |added| && added[i] == y;
      AddedRowsApart(rows, mine, added, n, e, x, i);
    }
    UniqueConcat(kept, added);
  }

  /** The rows an operation writes never collide with others, so its transaction commits. */
  lemma WriteCommits(mem: map<string, Session>, db: Tables, read: Statuses, u: Session, before: seq<Event>, e: Option<Event>, z: Sanitizers)
    requires Refines(mem, db, z)
    requires u.id in mem && before == mem[u.id].events
    requires z.Events(u.events) == z.Events(before + if e.Some? then [e.value] else [])
    requires e.Some? ==> IsFreshEvent(db.events, e.value)
    ensures UniqueEvents(SyncedEvents(db.events, read, u.id, u.events, z))
  {
    var added := NewEventRows(read, u.id, u.events, z);
    assert SessionMatches(db, mem[u.id], z);
    forall i | 0 <= i < |added|
      ensures IdKnown(EventsOf(db.events, u.id), added[i], |before|, e, i)
    {
      WrittenRowIds(mem, db, read, u, before, e, z, i);
    }
    RowsStayUnique(db.events, u.id, added, |before|, e);
  }

  lemma MarkMatches(db: Tables, eventId: string, delivery: Delivery, s: Session, z: Sanitizers)
    requires SessionMatches(db, s, z)
    ensures SessionMatches(MarkedDelivery(db, eventId, delivery), s, z)
  {
    MarkedRows(db.events, eventId, delivery, s.id);
  }

  lemma {:induction false} MarkedRows(rows: seq<EventRow>, eventId: string, delivery: Delivery, sid: string)
    ensures EventsOf(Marked(rows, eventId, delivery), sid) == Marked(EventsOf(rows, sid), eventId, delivery)
  {
    if rows != [] {
      MarkedRows(rows[1..], eventId, delivery, sid);
      assert Marked(rows, eventId, delivery)[1..] == Marked(rows[1..], eventId, delivery);
      if rows[0].sessionId == sid {
        assert EventsOf(rows, sid)[1..] == EventsOf(rows[1..], sid);
      }
    }
  }

  lemma DeleteMatches(db: Tables, ids: set<string>, s: Session, z: Sanitizers)
    requires SessionMatches(db, s, z) && s.id !in ids
    ensures SessionMatches(Deleted(db, ids), s, z)
  {
    FilterFilter(db.events, (r: EventRow) => r.sessionId !in ids, (r: EventRow) => r.sessionId == s.id);
    FilterFilter(db.memory, (r: MemoryRow) => r.sessionId !in ids, (r: MemoryRow) => r.sessionId == s.id);
    RepliesKeepMatching(db.replies, Deleted(db, ids).replies, s, z);
  }

  /** One store operation, or a part of it, keeps the two repositories in step. */
  lemma StepRefines(mem: map<string, Session>, x: Store, call: Call, z: Sanitizers, now: Time, y: Store)
    requires z.Valid() && Refines(mem, x.db, z) && Allowed(mem, x.db, call) && DbStep(x, call, z, now, y)
    ensures Refines(MemStep(mem, call, now), y.db, z)
  {
    match call
    case Create(s) => WriteRefines(mem, x.db, x.read.value.1, s, s, z, now, y.db);
    case On(sid, op) => OnRefines(mem, x, sid, op, z, now, y);
    case Delete(ids) => DeleteRefines(mem, x.db, ids, z);
    case Read(_) =>
    case Mark(eventId, delivery) => MarkRefines(mem, x.db, eventId, delivery, z);
  }

  lemma DeleteRefines(mem: map<string, Session>, db: Tables, ids: set<string>, z: Sanitizers)
    requires Refines(mem, db, z)
    ensures Refines(mem - ids, Deleted(db, ids), z)
  {
    FilterUniqueRows(db.events, (r: EventRow) => r.sessionId !in ids);
    forall sid | sid in mem && sid !in ids { DeleteMatches(db, ids, mem[sid], z); }
  }

  lemma MarkRefines(mem: map<string, Session>, db: Tables, eventId: string, delivery: Delivery, z: Sanitizers)
    requires Refines(mem, db, z)
    ensures Refines(mem, MarkedDelivery(db, eventId, delivery), z)
  {
    forall sid | sid in mem { MarkMatches(db, eventId, delivery, mem[sid], z); }
  }

  lemma OnRefines(mem: map<string, Session>, x: Store, sid: string, op: StoreOp, z: Sanitizers, now: Time, y: Store)
    requires z.Valid() && Refines(mem, x.db, z) && Allowed(mem, x.db, On(sid, op)) && DbStep(x, On(sid, op), z, now, y)
    ensures Refines(MemStep(mem, On(sid, op), now), y.db, z)
  {
    var loaded :| Loads(x.db, sid, loaded) && Updates(x, sid, loaded, op, z, now, y);
    LoadAgrees(mem, x.db, z, sid, loaded);
    if sid in mem {
      ChangeIsGoodWrite(mem, x.db, sid, op, z, now);
      if Change(mem[sid], op, now).Ok? {
        var t, u := Change(mem[sid], op, now).value, Change(loaded.value, op, now).value;
        WriteRefines(mem, x.db, x.read.value.1, t, u, z, now, y.db);
      }
    }
  }

  // ----- whole histories

  /** The calls were allowed when they were made, and the database went through these states. */
  ghost predicate History(mem: map<string, Session>, calls: seq<(Call, Time)>, states: seq<Store>, z: Sanitizers)
    decreases calls
  {
    && |states| == |calls| + 1
    && (calls != [] ==>
          && Allowed(mem, states[0].db, calls[0].0)
          && DbStep(states[0], calls[0].0, z, calls[0].1, states[1])
          && History(MemStep(mem, calls[0].0, calls[0].1), calls[1..], states[1..], z))
  }

  function MemRun(mem: map<string, Session>, calls: seq<(Call, Time)>): map<string, Session>
    decreases calls
  {
    if calls == [] then mem else MemRun(MemStep(mem, calls[0].0, calls[0].1), calls[1..])
  }

  lemma {:induction false} HistoryRefines(mem: map<string, Session>, calls: seq<(Call, Time)>, states: seq<Store>, z: Sanitizers)
    requires z.Valid() && History(mem, calls, states, z) && Refines(mem, states[0].db, z)
    ensures Refines(MemRun(mem, calls), states[|calls|].db, z)
    decreases calls
  {
    if calls != [] {
      StepRefines(mem, states[0], calls[0].0, z, calls[0].1, states[1]);
      HistoryRefines(MemStep(mem, calls[0].0, calls[0].1), calls[1..], states[1..], z);
    }
  }

  const NO_ROWS := Tables(map[], [], [], map[])

  /**
   * From two empty repositories, any history of store operations, with delivery marks landing anywhere,
   * ends with every load returning the sanitised in-memory session, and with at most one active reply
   * row per session.
   */
  lemma DatabaseRefinesMemory(calls: seq<(Call, Time)>, states: seq<Store>, codec: Codec, sid: string, loaded: Option<Session>)
    requires codec.Valid() && History(map[], calls, states, Persistent(codec))
    requires states[0] == Store(NO_ROWS, None)
    requires Loads(states[|calls|].db, sid, loaded)
    ensures var mem := MemRun(map[], calls);
      loaded == if sid in mem then Some(Persistent(codec).Session(mem[sid])) else None
    ensures sid in MemRun(map[], calls) ==> OneActive(states[|calls|].db.replies, sid)
  {
    PersistentIsValid(codec);
    HistoryRefines(map[], calls, states, Persistent(codec));
    LoadAgrees(MemRun(map[], calls), states[|calls|].db, Persistent(codec), sid, loaded);
  }

  // ----- transactions commit

  function NewEvent(op: StoreOp): Option<Event> {
    if op.AppendEvent? then Some(op.e) else None
  }

  function OptionSeq(e: Option<Event>): seq<Event> {
    if e.Some? then [e.value] else []
  }

  lemma ChangeAppendsEvent(s: Session, op: StoreOp, now: Time)
    ensures var r := Change(s, op, now);
      r.Ok? ==> r.value.id == s.id && r.value.events == s.events + OptionSeq(NewEvent(op))
  {
  }

  lemma SanitizedThenAppended(before: seq<Event>, e: Option<Event>, z: Sanitizers)
    requires z.Valid()
    ensures z.Events(z.Events(before) + OptionSeq(e)) == z.Events(before + OptionSeq(e))
  {
    assert z.Events(z.Events(before)) == z.Events(before);
    if e.Some? {
      EventsAppend(z.Events(before), e.value, z);
      EventsAppend(before, e.value, z);
    } else {
      assert before + [] == before && z.Events(before) + [] == z.Events(before);
    }
  }

  /** A store operation whose event is new is never undone by a unique constraint. */
  lemma OperationCommits(mem: map<string, Session>, db: Tables, read: Statuses, sid: string, op: StoreOp, z: Sanitizers, now: Time, loaded: Option<Session>)
    requires z.Valid() && Refines(mem, db, z) && Allowed(mem, db, On(sid, op)) && Loads(db, sid, loaded)
    requires loaded.Some? && Change(loaded.value, op, now).Ok?
    ensures UniqueEvents(SyncedEvents(db.events, read, sid, Change(loaded.value, op, now).value.events, z))
  {
    LoadAgrees(mem, db, z, sid, loaded);
    ChangeAppendsEvent(loaded.value, op, now);
    SanitizedThenAppended(mem[sid].events, NewEvent(op), z);
    WriteCommits(mem, db, read, Change(loaded.value, op, now).value, mem[sid].events, NewEvent(op), z);
  }

  // ----- the conditions on callers are the right ones

  /** A fresh question leaves one active row exactly if no question was open and no answer unread. */
  lemma AskNeedsQuietSession(replies: map<string, ReplyRow>, s: Session, question: string, id: string, latest: Option<string>,
                             z: Sanitizers, now: Time)
    requires SessionOk(s) && RepliesMatch(replies, s, z)
    requires id != "" && id !in replies && IsLatest(replies, s.id, {Waiting}, latest)
    ensures var asked := Change(s, SetWaitingQuestion(question, id), now).value;
      OneActive(SyncedReplies(replies, asked, latest, z, now), s.id) <==>
      (s.waitingReplyId == None && s.pendingReply == None)
  {
    var asked := Change(s, SetWaitingQuestion(question, id), now).value;
    var replies' := SyncedReplies(replies, asked, latest, z, now);
    assert IsActive(replies', s.id, id);
    assert forall r | r in replies :: IsActive(replies', s.id, r) <==> IsActive(replies, s.id, r);
  }

  /** Answering an open question is stored exactly if the answer is not empty. */
  lemma AnswerMustNotBeEmpty(replies: map<string, ReplyRow>, s: Session, message: string, latest: Option<string>,
                             z: Sanitizers, now: Time)
    requires z.Valid() && SessionOk(s) && RepliesMatch(replies, s, z)
    requires s.status == WaitingUser && s.waitingReplyId.Some? && IsLatest(replies, s.id, {Waiting}, latest)
    ensures var answered := Change(s, ApplyReply(s.waitingReplyId.value, message, true), now).value;
      RepliesMatch(SyncedReplies(replies, answered, latest, z, now), answered, z) <==> message != ""
  {
    var answered := Change(s, ApplyReply(s.waitingReplyId.value, message, true), now).value;
    if message != "" {
      RepliesOfSelf(replies, s, answered, answered, latest, z, now);
    } else {
      var replies' := SyncedReplies(replies, answered, latest, z, now);
      assert IsActive(replies, s.id, s.waitingReplyId.value);
      assert replies[s.waitingReplyId.value].status == Waiting;
      assert IsActive(replies', s.id, s.waitingReplyId.value);
    }
  }
}
