/** Pairing browser commands with their starts (`_build_browser_actions_metrics_from_records` in buyer/app/runner.py). */
module CommandPairing {
  import opened Common

  datatype Event = Started | Finished | Failed | OtherEvent

  /** The `ok` field of a record: absent or null, `false`, another false value such as 0, or a true one. */
  datatype OkField = Absent | IsFalse | Falsy | Truthy

  /** A log record; "" stands for a command or an id that is missing, empty or not a text. */
  datatype Record = Record(event: Event, command: string, id: string, duration: nat, ok: OkField,
                           ts: Option<int>, attemptId: Option<string>) {
    predicate IsStart() {
      command != "" && event == Started
    }

    predicate IsFinish() {
      command != "" && event in {Finished, Failed}
    }
  }

  // ----- pairing

  datatype Pair = Pair(start: Option<Record>, finish: Record)

  datatype Pairing = Pairing(queues: map<string, seq<Record>>, byId: map<string, Record>, pairs: seq<Pair>) {
    function Queue(command: string): seq<Record> {
      if command in queues then queues[command] else []
    }
  }

  /** `list.remove`: the first equal element goes. */
  function RemoveFirst(queue: seq<Record>, r: Record): seq<Record> {
    if queue == [] then []
    else if queue[0] == r then queue[1..]
    else [queue[0]] + RemoveFirst(queue[1..], r)
  }

  /** The start a finish takes, and the queue without it. */
  function Take(byId: map<string, Record>, queue: seq<Record>, finish: Record): (Option<Record>, seq<Record>) {
    var own := if finish.id != "" && finish.id in byId then Some(byId[finish.id]) else None;
    if own.Some? && own.value in queue then (own, RemoveFirst(queue, own.value))
    else if queue != [] then (Some(queue[0]), queue[1..])
    else (own, queue)
  }

  function PairRecord(p: Pairing, r: Record): Pairing {
    if r.IsStart() then
      p.(queues := p.queues[r.command := p.Queue(r.command) + [r]],
         byId := if r.id != "" then p.byId[r.id := r] else p.byId)
    else if r.IsFinish() then
      var taken := Take(p.byId, p.Queue(r.command), r);
      Pairing(if r.command in p.queues then p.queues[r.command := taken.1] else p.queues,
              if r.id != "" then p.byId - {r.id} else p.byId,
              p.pairs + [Pair(taken.0, r)])
    else p
  }

  function PairAll(records: seq<Record>): Pairing {
    if records == [] then Pairing(map[], map[], [])
    else PairRecord(PairAll(records[..|records| - 1]), records[|records| - 1])
  }

  // ----- what pairing should do

  function FinishedIds(records: seq<Record>): set<string> {
    set r | r in records && r.IsFinish() :: r.id
  }

  function StartedIds(records: seq<Record>): set<string> {
    set r | r in records && r.IsStart() :: r.id
  }

  /** The starts of a command, in order, whose ids are not among the finished ones. */
  function Open(records: seq<Record>, finished: set<string>, command: string): seq<Record> {
    if records == [] then []
    else
      var last := records[|records| - 1];
      Open(records[..|records| - 1], finished, command)
      + if last.IsStart() && last.command == command && last.id !in finished then [last] else []
  }

  /** This start belongs to the command with this id. */
  predicate IsStartOf(r: Record, finish: Record) {
    r.IsStart() && r.id == finish.id && r.command == finish.command
  }

  /** Ids are unique, and a finish comes after the one start with its id and its command. */
  ghost predicate WellFormed(records: seq<Record>)
    decreases records
  {
    records == []
    || (var front, last := records[..|records| - 1], records[|records| - 1];
        && WellFormed(front)
        && (last.IsStart() ==> last.id != "" && last.id !in StartedIds(front))
        && (last.IsFinish() ==> last.id != "" && last.id !in FinishedIds(front)
                                && exists r :: r in front && IsStartOf(r, last)))
  }

  /** Every finish is paired, in order, with the start that has its id and its command. */
  ghost predicate OwnStarts(pairs: seq<Pair>, records: seq<Record>) {
    && (forall p | p in pairs :: p.start.Some? && p.start.value in records && IsStartOf(p.start.value, p.finish))
    && Finishes(pairs) == FinishesOf(records)
  }

  function Finishes(pairs: seq<Pair>): seq<Record> {
    if pairs == [] then [] else Finishes(pairs[..|pairs| - 1]) + [pairs[|pairs| - 1].finish]
  }

  function FinishesOf(records: seq<Record>): seq<Record> {
    if records == [] then []
    else
      var last := records[|records| - 1];
      FinishesOf(records[..|records| - 1]) + if last.IsFinish() then [last] else []
  }

  /** The queues hold exactly the unfinished starts, and the id table finds exactly those. */
  ghost predicate Tracks(p: Pairing, records: seq<Record>, finished: set<string>) {
    QueuesTrack(p, records, finished) && TableTracks(p.byId, records, finished)
  }

  ghost predicate QueuesTrack(p: Pairing, records: seq<Record>, finished: set<string>) {
    forall command :: p.Queue(command) == Open(records, finished, command)
  }

  ghost predicate TableTracks(byId: map<string, Record>, records: seq<Record>, finished: set<string>) {
    forall r | r in records && r.IsStart() && r.id !in finished :: r.id in byId && byId[r.id] == r
  }

  lemma OpenAppend(front: seq<Record>, last: Record, finished: set<string>, command: string)
    ensures Open(front + [last], finished, command)
         == if last.IsStart() && last.command == command && last.id !in finished
            then Open(front, finished, command) + [last]
            else Open(front, finished, command)
  {
    assert (front + [last])[..|front|] == front;
    assert Open(front, finished, command) + [] == Open(front, finished, command);
  }

  lemma {:induction false} OpenMembers(records: seq<Record>, finished: set<string>, command: string, r: Record)
    ensures r in Open(records, finished, command)
       <==> r in records && r.IsStart() && r.command == command && r.id !in finished
  {
    if records != [] {
      OpenMembers(records[..|records| - 1], finished, command, r);
      assert records == records[..|records| - 1] + [records[|records| - 1]];
    }
  }

  lemma {:induction false} OpenSame(records: seq<Record>, finished: set<string>, id: string, command: string)
    requires forall r | r in records && r.IsStart() && r.command == command :: r.id != id
    ensures Open(records, finished + {id}, command) == Open(records, finished, command)
  {
    if records != [] {
      OpenSame(records[..|records| - 1], finished, id, command);
      assert records[|records| - 1] in records;
    }
  }

  lemma {:induction false} RemoveFromFront(queue: seq<Record>, x: Record, r: Record)
    ensures r in queue ==> RemoveFirst(queue + [x], r) == RemoveFirst(queue, r) + [x]
    ensures r !in queue && x == r ==> RemoveFirst(queue + [x], r) == queue
  {
    if queue != [] {
      assert (queue + [x])[1..] == queue[1..] + [x];
      RemoveFromFront(queue[1..], x, r);
    }
  }

  lemma {:induction false} UniqueStarts(records: seq<Record>, i: nat, j: nat)
    requires WellFormed(records) && i < j < |records| && records[i].IsStart() && records[j].IsStart()
    ensures records[i].id != records[j].id
  {
    var front := records[..|records| - 1];
    if j < |front| {
      UniqueStarts(front, i, j);
    } else {
      assert front[i] in front;
    }
  }

  /** Finishing an open start takes exactly that start out of its queue. */
  lemma {:induction false} OpenRemoves(records: seq<Record>, finished: set<string>, start: Record)
    requires WellFormed(records) && start in records && start.IsStart() && start.id !in finished
    ensures Open(records, finished + {start.id}, start.command)
         == RemoveFirst(Open(records, finished, start.command), start)
  {
    var front, last := records[..|records| - 1], records[|records| - 1];
    assert records == front + [last];
    var queue := Open(front, finished, start.command);
    OpenMembers(front, finished, start.command, start);
    if start in front {
      OpenRemoves(front, finished, start);
      var i :| 0 <= i < |front| && front[i] == start;
      if last.IsStart() {
        UniqueStarts(records, i, |front|);
        RemoveFromFront(queue, last, start);
      }
      assert queue + [] == queue && RemoveFirst(queue, start) + [] == RemoveFirst(queue, start);
    } else {
      OpenSame(front, finished, start.id, start.command) by {
        forall r | r in front && r.IsStart() && r.command == start.command
          ensures r.id != start.id
        {
          assert r.id in StartedIds(front);
        }
      }
      RemoveFromFront(queue, last, start);
    }
  }

  lemma StartById(records: seq<Record>, a: Record, b: Record)
    requires WellFormed(records) && a in records && b in records && a.IsStart() && b.IsStart() && a.id == b.id
    ensures a == b
  {
    var i :| 0 <= i < |records| && records[i] == a;
    var j :| 0 <= j < |records| && records[j] == b;
    if i < j {
      UniqueStarts(records, i, j);
    } else if j < i {
      UniqueStarts(records, j, i);
    }
  }

  lemma {:induction false} FinishedWereStarted(records: seq<Record>)
    requires WellFormed(records)
    ensures FinishedIds(records) <= StartedIds(records)
  {
    if records != [] {
      var front, last := records[..|records| - 1], records[|records| - 1];
      assert records == front + [last];
      FinishedWereStarted(front);
      forall id | id in FinishedIds(records)
        ensures id in StartedIds(records)
      {
        if id in FinishedIds(front) {
          assert id in StartedIds(front);
        } else {
          var r :| r in front && IsStartOf(r, last);
          assert r in records;
        }
      }
    }
  }

  lemma IdsAppend(front: seq<Record>, last: Record)
    ensures FinishedIds(front + [last])
         == if last.IsFinish() then FinishedIds(front) + {last.id} else FinishedIds(front)
  {
    var all := front + [last];
    assert forall r :: r in all <==> r in front || r == last;
    forall id
      ensures id in FinishedIds(all) <==> id in FinishedIds(front) || (last.IsFinish() && id == last.id)
    {
      if id in FinishedIds(front) {
        var r :| r in front && r.IsFinish() && r.id == id;
        assert r in all;
      }
      if last.IsFinish() && id == last.id {
        assert last in all;
      }
    }
  }

  lemma StartInTable(front: seq<Record>, last: Record, byId: map<string, Record>, ids: set<string>)
    requires TableTracks(byId, front, ids) && last.id !in StartedIds(front)
    ensures TableTracks(byId[last.id := last], front + [last], ids)
  {
    forall r | r in front + [last] && r.IsStart() && r.id !in ids
      ensures r.id in byId[last.id := last] && byId[last.id := last][r.id] == r
    {
      if r in front {
        assert r.id in StartedIds(front);
      }
    }
  }

  lemma StartInQueue(front: seq<Record>, last: Record, p: Pairing, ids: set<string>)
    requires QueuesTrack(p, front, ids) && last.IsStart() && last.id !in ids
    ensures QueuesTrack(PairRecord(p, last), front + [last], ids)
  {
    forall command
      ensures PairRecord(p, last).Queue(command) == Open(front + [last], ids, command)
    {
      OpenAppend(front, last, ids, command);
    }
  }

  lemma StartTracks(front: seq<Record>, last: Record, p: Pairing, ids: set<string>)
    requires last.IsStart() && last.id != "" && last.id !in StartedIds(front) && ids <= StartedIds(front)
    requires Tracks(p, front, ids)
    ensures Tracks(PairRecord(p, last), front + [last], ids)
  {
    StartInQueue(front, last, p, ids);
    StartInTable(front, last, p.byId, ids);
  }

  lemma OtherTracks(front: seq<Record>, last: Record, p: Pairing, ids: set<string>)
    requires !last.IsStart() && !last.IsFinish() && Tracks(p, front, ids)
    ensures Tracks(p, front + [last], ids)
  {
    forall command
      ensures p.Queue(command) == Open(front + [last], ids, command)
    {
      OpenAppend(front, last, ids, command);
    }
  }

  /** The finish takes its own start out of its queue and out of the id table. */
  lemma FinishTakesOwn(front: seq<Record>, last: Record, start: Record, p: Pairing, ids: set<string>)
    requires last.IsFinish() && last.id != "" && last.id !in ids
    requires start in front && IsStartOf(start, last) && Tracks(p, front, ids)
    ensures start in p.Queue(last.command)
    ensures Take(p.byId, p.Queue(last.command), last) == (Some(start), RemoveFirst(p.Queue(last.command), start))
  {
    OpenMembers(front, ids, last.command, start);
  }

  lemma FinishTracks(front: seq<Record>, last: Record, start: Record, p: Pairing, ids: set<string>)
    requires WellFormed(front) && last.IsFinish() && last.id != "" && last.id !in ids
    requires start in front && IsStartOf(start, last) && Tracks(p, front, ids)
    ensures Tracks(PairRecord(p, last), front + [last], ids + {last.id})
  {
    FinishTakesOwn(front, last, start, p, ids);
    OpenRemoves(front, ids, start);
    var p' := PairRecord(p, last);
    forall command
      ensures p'.Queue(command) == Open(front + [last], ids + {last.id}, command)
    {
      OpenAppend(front, last, ids + {last.id}, command);
      if command != last.command {
        OtherQueueStays(front, last, start, ids, command);
      }
    }
  }

  lemma OtherQueueStays(front: seq<Record>, last: Record, start: Record, ids: set<string>, command: string)
    requires WellFormed(front) && start in front && IsStartOf(start, last) && command != last.command
    ensures Open(front, ids + {last.id}, command) == Open(front, ids, command)
  {
    forall r | r in front && r.IsStart() && r.command == command
      ensures r.id != last.id
    {
      if r.id == last.id {
        StartById(front, r, start);
      }
    }
    OpenSame(front, ids, last.id, command);
  }

  lemma PairsAppend(pairs: seq<Pair>, p: Pair)
    ensures Finishes(pairs + [p]) == Finishes(pairs) + [p.finish]
  {
    assert (pairs + [p])[..|pairs|] == pairs;
  }

  lemma FinishesAppend(front: seq<Record>, last: Record)
    ensures FinishesOf(front + [last]) == FinishesOf(front) + if last.IsFinish() then [last] else []
  {
    assert (front + [last])[..|front|] == front;
  }

  lemma OwnStartsStay(pairs: seq<Pair>, front: seq<Record>, last: Record)
    requires OwnStarts(pairs, front) && !last.IsFinish()
    ensures OwnStarts(pairs, front + [last])
  {
    FinishesAppend(front, last);
    assert FinishesOf(front) + [] == FinishesOf(front);
  }

  lemma OwnStartsGrow(pairs: seq<Pair>, front: seq<Record>, last: Record, start: Record)
    requires OwnStarts(pairs, front) && last.IsFinish() && start in front && IsStartOf(start, last)
    ensures OwnStarts(pairs + [Pair(Some(start), last)], front + [last])
  {
    FinishesAppend(front, last);
    PairsAppend(pairs, Pair(Some(start), last));
  }

  /** What one more record does to a right pairing. */
  lemma PairRecordIsRight(front: seq<Record>, last: Record, p: Pairing, ids: set<string>)
    requires WellFormed(front + [last]) && ids == FinishedIds(front)
    requires Tracks(p, front, ids) && OwnStarts(p.pairs, front)
    ensures Tracks(PairRecord(p, last), front + [last], if last.IsFinish() then ids + {last.id} else ids)
    ensures OwnStarts(PairRecord(p, last).pairs, front + [last])
  {
    assert (front + [last])[..|front|] == front;
    if last.IsStart() {
      FinishedWereStarted(front);
      StartTracks(front, last, p, ids);
      OwnStartsStay(p.pairs, front, last);
    } else if last.IsFinish() {
      var start :| start in front && IsStartOf(start, last);
      FinishTakesOwn(front, last, start, p, ids);
      FinishTracks(front, last, start, p, ids);
      OwnStartsGrow(p.pairs, front, last, start);
    } else {
      OtherTracks(front, last, p, ids);
      OwnStartsStay(p.pairs, front, last);
    }
  }

  /**
   * With unique ids and finishes that follow their starts, every finish is paired with its own start,
   * and the queues hold exactly the starts that have not finished.
   */
  lemma {:induction false} PairingIsRight(records: seq<Record>)
    requires WellFormed(records)
    ensures Tracks(PairAll(records), records, FinishedIds(records))
    ensures OwnStarts(PairAll(records).pairs, records)
  {
    if |records| > 0 {
      var front, last := records[..|records| - 1], records[|records| - 1];
      assert records == front + [last];
      PairingIsRight(front);
      IdsAppend(front, last);
      PairRecordIsRight(front, last, PairAll(front), FinishedIds(front));
    }
  }
}
