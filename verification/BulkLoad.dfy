/**
 * Loading all sessions at once (`_load_all_sessions` in buyer/app/persistence.py): one query per table for all
 * sessions together, whose rows are then handed out to their sessions.
 */
module BulkLoad {
  import opened Common
  import opened StableSort
  import opened Sessions
  import opened Postgres
  import opened PostgresRefinement

  // ----- sorting all rows sorts the rows of each session

  /** ORDER BY session, then by position; how the database orders session ids is a parameter. */
  predicate RowBefore<R>(a: R, b: R, sid: R -> string, position: R -> nat, sidBefore: (string, string) -> bool) {
    || sidBefore(sid(a), sid(b))
    || (!sidBefore(sid(b), sid(a)) && position(a) < position(b))
  }

  function BySession<R>(sid: R -> string, position: R -> nat, sidBefore: (string, string) -> bool): (R, R) -> bool {
    (a: R, b: R) => RowBefore(a, b, sid, position, sidBefore)
  }

  lemma BySessionIsOrder<R(!new)>(sid: R -> string, position: R -> nat, sidBefore: (string, string) -> bool)
    requires IsOrder(sidBefore)
    ensures IsOrder(BySession(sid, position, sidBefore))
  {
    var before := BySession(sid, position, sidBefore);
    forall a: R, b: R, c: R | before(a, c)
      ensures before(a, b) || before(b, c)
    {
      assert RowBefore(a, c, sid, position, sidBefore);
      assert sidBefore(sid(a), sid(c)) ==> sidBefore(sid(a), sid(b)) || sidBefore(sid(b), sid(c));
      assert sidBefore(sid(b), sid(a)) ==> sidBefore(sid(b), sid(c)) || sidBefore(sid(c), sid(a));
      assert sidBefore(sid(c), sid(b)) ==> sidBefore(sid(c), sid(a)) || sidBefore(sid(a), sid(b));
    }
  }

  lemma FilterSnoc<R>(front: seq<R>, last: R, keep: R -> bool)
    ensures Filter(front + [last], keep) == if keep(last) then Filter(front, keep) + [last] else Filter(front, keep)
  {
    FilterAppend(front, [last], keep);
    assert Filter([last], keep) == (if keep(last) then [last] else []) + Filter([last][1..], keep);
    assert Filter(front, keep) + [] == Filter(front, keep);
  }

  /** Rows that are kept compare the same either way. */
  ghost predicate Agree<R(!new)>(before: (R, R) -> bool, inner: (R, R) -> bool, keep: R -> bool) {
    forall a, b | keep(a) && keep(b) :: before(a, b) == inner(a, b)
  }

  /** A row that comes before none of these rows goes behind those of them that are kept. */
  lemma InsertLast<R(!new)>(sorted: seq<R>, x: R, before: (R, R) -> bool, inner: (R, R) -> bool, keep: R -> bool)
    requires Agree(before, inner, keep) && keep(x) && forall r | r in sorted :: !before(x, r)
    ensures Insert(Filter(sorted, keep), x, inner) == Filter(sorted, keep) + [x]
  {
    FilterMembers(sorted, keep);
    var kept := Filter(sorted, keep);
    if kept != [] {
      assert kept[|kept| - 1] in kept;
    }
  }

  lemma InsertBefore<R>(front: seq<R>, last: R, x: R, before: (R, R) -> bool)
    ensures before(x, last) ==> Insert(front + [last], x, before) == Insert(front, x, before) + [last]
    ensures !before(x, last) ==> Insert(front + [last], x, before) == front + [last] + [x]
  {
    assert (front + [last])[..|front|] == front;
  }

  lemma BeforeNone<R(!new)>(front: seq<R>, last: R, x: R, before: (R, R) -> bool)
    requires IsOrder(before) && InOrder(front + [last], before) && !before(x, last)
    ensures forall r | r in front + [last] :: !before(x, r)
  {
    var sorted := front + [last];
    forall i | 0 <= i < |sorted|
      ensures !before(x, sorted[i])
    {
      if i < |front| {
        assert !before(sorted[|front|], sorted[i]);
        var y := sorted[i];
        assert before(x, y) ==> before(x, last) || before(last, y);
      }
    }
  }

  lemma {:induction false} InsertFilters<R(!new)>(sorted: seq<R>, x: R, before: (R, R) -> bool, inner: (R, R) -> bool,
                                                  keep: R -> bool)
    requires IsOrder(before) && InOrder(sorted, before) && Agree(before, inner, keep)
    ensures Filter(Insert(sorted, x, before), keep)
         == if keep(x) then Insert(Filter(sorted, keep), x, inner) else Filter(sorted, keep)
    decreases |sorted|
  {
    if |sorted| == 0 {
      FilterSnoc([], x, keep);
    } else {
      var front, last := sorted[..|sorted| - 1], sorted[|sorted| - 1];
      assert sorted == front + [last];
      InsertBefore(front, last, x, before);
      FilterSnoc(front, last, keep);
      if before(x, last) {
        InsertFilters(front, x, before, inner, keep);
        FilterSnoc(Insert(front, x, before), last, keep);
        InsertBefore(Filter(front, keep), last, x, inner);
      } else {
        FilterSnoc(sorted, x, keep);
        BeforeNone(front, last, x, before);
        if keep(x) {
          InsertLast(sorted, x, before, inner, keep);
        }
      }
    }
  }

  /** Sorting all rows and then picking some is picking them first and sorting those. */
  lemma {:induction false} SortFilters<R(!new)>(rows: seq<R>, before: (R, R) -> bool, inner: (R, R) -> bool, keep: R -> bool)
    requires IsOrder(before) && Agree(before, inner, keep)
    ensures Filter(Sort(rows, before), keep) == Sort(Filter(rows, keep), inner)
    decreases |rows|
  {
    if |rows| > 0 {
      var front, last := rows[..|rows| - 1], rows[|rows| - 1];
      assert rows == front + [last];
      SortFilters(front, before, inner, keep);
      SortSorts(front, before);
      InsertFilters(Sort(front, before), last, before, inner, keep);
      FilterSnoc(front, last, keep);
      SortSnoc(Filter(front, keep), last, inner);
    }
  }

  lemma SortSnoc<R>(front: seq<R>, last: R, before: (R, R) -> bool)
    ensures Sort(front + [last], before) == Insert(Sort(front, before), last, before)
  {
    assert (front + [last])[..|front|] == front;
  }

  // ----- the rows of all sessions, handed out

  function Of<R>(sid: R -> string, owner: string): R -> bool {
    (r: R) => sid(r) == owner
  }

  function Group<R>(groups: map<string, seq<R>>, sid: string): seq<R> {
    if sid in groups then groups[sid] else []
  }

  /** What one query for the sessions returns. */
  function Selected<R>(rows: seq<R>, ids: seq<string>, sid: R -> string, position: R -> nat,
                       sidBefore: (string, string) -> bool): seq<R> {
    Sort(Filter(rows, (r: R) => sid(r) in ids), BySession(sid, position, sidBefore))
  }

  /** Of the rows of all sessions, one session's are the rows it would have loaded by itself. */
  lemma SelectedOfOne<R(!new)>(rows: seq<R>, ids: seq<string>, sid: R -> string, position: R -> nat,
                               sidBefore: (string, string) -> bool, owner: string)
    requires IsOrder(sidBefore) && owner in ids
    ensures Filter(Selected(rows, ids, sid, position, sidBefore), Of(sid, owner))
         == Ordered(Filter(rows, Of(sid, owner)), position)
  {
    var mine := (r: R) => sid(r) in ids;
    BySessionIsOrder(sid, position, sidBefore);
    SortFilters(Filter(rows, mine), BySession(sid, position, sidBefore), ByPosition(position), Of(sid, owner));
    FilterFilter(rows, mine, Of(sid, owner));
  }

  /** `setdefault(sid, []).append(row)` for every row. */
  method HandOut<R>(rows: seq<R>, sid: R -> string) returns (groups: map<string, seq<R>>)
    ensures forall owner: string :: Group(groups, owner) == Filter(rows, Of(sid, owner))
  {
    groups := map[];
    for i := 0 to |rows|
      invariant forall owner: string :: Group(groups, owner) == Filter(rows[..i], Of(sid, owner))
    {
      assert rows[..i + 1] == rows[..i] + [rows[i]];
      forall owner: string
        ensures Filter(rows[..i + 1], Of(sid, owner))
             == if sid(rows[i]) == owner then Filter(rows[..i], Of(sid, owner)) + [rows[i]] else Filter(rows[..i], Of(sid, owner))
      {
        FilterSnoc(rows[..i], rows[i], Of(sid, owner));
      }
      groups := groups[sid(rows[i]) := Group(groups, sid(rows[i])) + [rows[i]]];
    }
    assert rows[..|rows|] == rows;
  }

  function LatestOf(latest: map<string, string>, sid: string): Option<string> {
    if sid in latest then Some(latest[sid]) else None
  }

  ghost predicate HasLatest(replies: map<string, ReplyRow>, latest: map<string, string>) {
    forall sid: string :: IsLatest(replies, sid, {Waiting, Answered}, LatestOf(latest, sid))
  }

  /** Whether a row of the session is active and newer than the latest one so far. */
  predicate IsNewer(seen: map<string, ReplyRow>, latest: Option<string>, row: ReplyRow) {
    row.status in {Waiting, Answered}
    && (latest.Some? && latest.value in seen ==> seen[latest.value].createdAt <= row.createdAt)
  }

  lemma LatestMore(seen: map<string, ReplyRow>, latest: map<string, string>, id: string, row: ReplyRow)
    requires HasLatest(seen, latest) && id !in seen
    ensures HasLatest(seen[id := row], if IsNewer(seen, LatestOf(latest, row.sessionId), row)
                                       then latest[row.sessionId := id] else latest)
  {
    var latest' := if IsNewer(seen, LatestOf(latest, row.sessionId), row) then latest[row.sessionId := id] else latest;
    forall sid: string
      ensures IsLatest(seen[id := row], sid, {Waiting, Answered}, LatestOf(latest', sid))
    {
      assert IsLatest(seen, sid, {Waiting, Answered}, LatestOf(latest, sid));
    }
  }

  /** DISTINCT ON the session, newest first: the latest active reply row of every session. */
  method LatestReplies(replies: map<string, ReplyRow>) returns (latest: map<string, string>)
    ensures HasLatest(replies, latest)
  {
    latest := map[];
    var todo, seen := replies.Keys, map[];
    while todo != {}
      invariant todo <= replies.Keys && seen == map r | r in replies.Keys - todo :: replies[r]
      invariant HasLatest(seen, latest)
      decreases |todo|
    {
      var id :| id in todo;
      var row := replies[id];
      LatestMore(seen, latest, id, row);
      if IsNewer(seen, LatestOf(latest, row.sessionId), row) {
        latest := latest[row.sessionId := id];
      }
      todo, seen := todo - {id}, seen[id := row];
    }
    assert seen == replies;
  }

  // ----- the sessions

  /** The session has a row, and these are the rows that belong to it. */
  ghost predicate Belong(db: Tables, sid: string, eventRows: seq<EventRow>, memoryRows: seq<MemoryRow>, latest: Option<string>) {
    && sid in db.sessions && IsLatest(db.replies, sid, {Waiting, Answered}, latest)
    && eventRows == EventsInOrder(db.events, sid) && memoryRows == MemoryInOrder(db.memory, sid)
  }

  /** One turn of the loop over the session rows. */
  method BuildState(db: Tables, sid: string, eventRows: seq<EventRow>, memoryRows: seq<MemoryRow>, latest: Option<string>)
    returns (state: Session)
    requires Belong(db, sid, eventRows, memoryRows, latest)
    ensures Loads(db, sid, Some(state))
  {
    var row := db.sessions[sid];
    var waitingReplyId: Option<string>, waitingQuestion: Option<string>, pendingReply: Option<string> := None, None, None;
    if latest.Some? && db.replies[latest.value].status == Waiting {
      waitingReplyId, waitingQuestion := latest, Some(db.replies[latest.value].question);
    } else if latest.Some? && db.replies[latest.value].status == Answered {
      pendingReply := db.replies[latest.value].message;
    }
    state := Session(sid, row.task, None, row.status, row.updatedAt, waitingReplyId, waitingQuestion, row.lastError,
                     LoadedEvents(eventRows), LoadedMemory(memoryRows), pendingReply);
    assert state == LoadedSession(db, sid, latest);
  }

  lemma {:induction false} FilterSame<R>(rows: seq<R>, a: R -> bool, b: R -> bool)
    requires forall r | r in rows :: a(r) == b(r)
    ensures Filter(rows, a) == Filter(rows, b)
  {
    if rows != [] {
      assert rows[0] in rows;
      FilterSame(rows[1..], a, b);
    }
  }

  function EventSid(r: EventRow): string {
    r.sessionId
  }

  function MemorySid(r: MemoryRow): string {
    r.sessionId
  }

  /** The event rows of all these sessions, each as it would have loaded them by itself. */
  method EventsBySession(rows: seq<EventRow>, ids: seq<string>, sidBefore: (string, string) -> bool)
    returns (groups: map<string, seq<EventRow>>)
    requires IsOrder(sidBefore)
    ensures forall owner | owner in ids :: Group(groups, owner) == EventsInOrder(rows, owner)
  {
    groups := HandOut(Selected(rows, ids, EventSid, EventPosition, sidBefore), EventSid);
    forall owner | owner in ids
      ensures Group(groups, owner) == EventsInOrder(rows, owner)
    {
      SelectedOfOne(rows, ids, EventSid, EventPosition, sidBefore, owner);
      FilterSame(rows, Of(EventSid, owner), (r: EventRow) => r.sessionId == owner);
    }
  }

  method MemoryBySession(rows: seq<MemoryRow>, ids: seq<string>, sidBefore: (string, string) -> bool)
    returns (groups: map<string, seq<MemoryRow>>)
    requires IsOrder(sidBefore)
    ensures forall owner | owner in ids :: Group(groups, owner) == MemoryInOrder(rows, owner)
  {
    groups := HandOut(Selected(rows, ids, MemorySid, MemoryPosition, sidBefore), MemorySid);
    forall owner | owner in ids
      ensures Group(groups, owner) == MemoryInOrder(rows, owner)
    {
      SelectedOfOne(rows, ids, MemorySid, MemoryPosition, sidBefore, owner);
      FilterSame(rows, Of(MemorySid, owner), (r: MemoryRow) => r.sessionId == owner);
    }
  }

  ghost predicate AllLoaded(db: Tables, ids: seq<string>, states: seq<Session>) {
    |states| == |ids| && forall i | 0 <= i < |ids| :: Loads(db, ids[i], Some(states[i]))
  }

  lemma AllLoadedMore(db: Tables, ids: seq<string>, states: seq<Session>, sid: string, state: Session)
    requires AllLoaded(db, ids, states) && Loads(db, sid, Some(state))
    ensures AllLoaded(db, ids + [sid], states + [state])
  {
  }

  ghost predicate AllBelong(db: Tables, ids: seq<string>, eventsBySid: map<string, seq<EventRow>>,
                            memoryBySid: map<string, seq<MemoryRow>>, replyBySid: map<string, string>) {
    forall i | 0 <= i < |ids| ::
      Belong(db, ids[i], Group(eventsBySid, ids[i]), Group(memoryBySid, ids[i]), LatestOf(replyBySid, ids[i]))
  }

  /** The loop over the session rows. */
  method BuildStates(db: Tables, ids: seq<string>, eventsBySid: map<string, seq<EventRow>>,
                     memoryBySid: map<string, seq<MemoryRow>>, replyBySid: map<string, string>)
    returns (states: seq<Session>)
    requires AllBelong(db, ids, eventsBySid, memoryBySid, replyBySid)
    ensures AllLoaded(db, ids, states)
  {
    states := [];
    for i := 0 to |ids|
      invariant AllLoaded(db, ids[..i], states)
    {
      var sid := ids[i];
      var state := BuildState(db, sid, Group(eventsBySid, sid), Group(memoryBySid, sid), LatestOf(replyBySid, sid));
      AllLoadedMore(db, ids[..i], states, sid, state);
      assert ids[..i + 1] == ids[..i] + [sid];
      states := states + [state];
    }
    assert ids[..|ids|] == ids;
  }

  /**
   * `ids` is what the query for the sessions returns: all of them, in its order. Every session comes out as
   * if it had been loaded by itself.
   */
  method LoadAllSessions(db: Tables, ids: seq<string>, sidBefore: (string, string) -> bool)
    returns (states: seq<Session>)
    requires IsOrder(sidBefore) && NoDuplicates(ids) && forall sid :: sid in ids <==> sid in db.sessions
    ensures AllLoaded(db, ids, states)
  {
    if ids == [] {
      return [];
    }
    var eventsBySid := EventsBySession(db.events, ids, sidBefore);
    var memoryBySid := MemoryBySession(db.memory, ids, sidBefore);
    var replyBySid := LatestReplies(db.replies);
    forall i | 0 <= i < |ids|
      ensures Belong(db, ids[i], Group(eventsBySid, ids[i]), Group(memoryBySid, ids[i]), LatestOf(replyBySid, ids[i]))
    {
      assert ids[i] in ids;
    }
    states := BuildStates(db, ids, eventsBySid, memoryBySid, replyBySid);
  }

  /** So loading all sessions gives exactly the sessions kept in memory, sanitised. */
  lemma AllLoadedAgree(mem: map<string, Session>, db: Tables, z: Sanitizers, ids: seq<string>, states: seq<Session>)
    requires Refines(mem, db, z) && AllLoaded(db, ids, states) && forall sid :: sid in ids <==> sid in db.sessions
    ensures forall sid :: sid in ids <==> sid in mem
    ensures forall i | 0 <= i < |ids| :: ids[i] in mem && states[i] == z.Session(mem[ids[i]])
  {
    forall i | 0 <= i < |ids|
      ensures ids[i] in mem && states[i] == z.Session(mem[ids[i]])
    {
      LoadAgrees(mem, db, z, ids[i], Some(states[i]));
    }
  }
}
