/** The bounded queues of the operator's screen (`_offer` and the reads of a subscriber, micro-ui/app/store.py). */
module EventQueues {
  import opened Common
  import Sanitizer

  datatype Envelope = Envelope(eventId: string, sessionId: string, eventType: string, occurredAt: int,
                               idempotencyKey: string, payload: map<string, Sanitizer.Json>)

  const QUEUE_SIZE := 200

  /** A topic is one session, or every session. */
  predicate Matches(e: Envelope, topic: Option<string>) {
    topic.None? || topic.value == e.sessionId
  }

  function Matching(events: seq<Envelope>, topic: Option<string>): seq<Envelope> {
    if events == [] then []
    else
      var last := events[|events| - 1];
      Matching(events[..|events| - 1], topic) + if Matches(last, topic) then [last] else []
  }

  lemma MatchingAppend(events: seq<Envelope>, e: Envelope, topic: Option<string>)
    ensures Matching(events + [e], topic)
         == if Matches(e, topic) then Matching(events, topic) + [e] else Matching(events, topic)
  {
    assert (events + [e])[..|events|] == events;
    assert Matching(events, topic) + [] == Matching(events, topic);
  }

  /** A queue with its history: `offered` is what it was offered and `taken` where its consumer read. */
  datatype Queue = Queue(items: seq<Envelope>, offered: seq<Envelope>, taken: seq<int>, dropped: nat) {
    /**
     * The queue is a suffix of what was offered, the consumer read an in-order part of the rest without
     * repetition, and everything offered was read, dropped or is still queued.
     */
    ghost predicate Valid() {
      && |items| <= QUEUE_SIZE
      && |offered| == |taken| + dropped + |items|
      && items == offered[|offered| - |items|..]
      && (forall i | 0 <= i < |taken| :: 0 <= taken[i] < |offered| - |items|)
      && (forall i, j | 0 <= i < j < |taken| :: taken[i] < taken[j])
    }

    /** A full queue gives up its oldest event. */
    function Put(e: Envelope): Queue {
      if |items| == QUEUE_SIZE then Queue(items[1..] + [e], offered + [e], taken, dropped + 1)
      else Queue(items + [e], offered + [e], taken, dropped)
    }

    function Take(): Queue
      requires |items| > 0
    {
      Queue(items[1..], offered, taken + [|offered| - |items|], dropped)
    }

    /** What was offered and not yet read. */
    function Outstanding(): int {
      |offered| - |taken|
    }
  }

  const EMPTY := Queue([], [], [], 0)

  /** What happens to a queue: it is offered an event, or its consumer asks for one. */
  datatype Step = Accept(e: Envelope) | Read

  /** A read of an empty queue gets nothing. */
  function Next(q: Queue, s: Step): Queue {
    match s
    case Accept(e) => q.Put(e)
    case Read => if |q.items| > 0 then q.Take() else q
  }

  /** The queue after these steps, from its subscription on. */
  function After(steps: seq<Step>): Queue {
    if steps == [] then EMPTY else Next(After(steps[..|steps| - 1]), steps[|steps| - 1])
  }

  lemma AfterNext(steps: seq<Step>, s: Step)
    ensures After(steps + [s]) == Next(After(steps), s)
  {
    assert (steps + [s])[..|steps|] == steps;
  }

  lemma PutIsValid(q: Queue, e: Envelope)
    requires q.Valid()
    ensures q.Put(e).Valid()
  {
    var q' := q.Put(e);
    assert q'.items == q'.offered[|q'.offered| - |q'.items|..];
  }

  lemma TakeIsValid(q: Queue)
    requires q.Valid() && |q.items| > 0
    ensures q.Take().Valid()
  {
    assert q.Take().items == q.offered[|q.offered| - |q.items| + 1..];
  }

  lemma NextIsValid(q: Queue, s: Step)
    requires q.Valid()
    ensures Next(q, s).Valid()
  {
    match s
    case Accept(e) => PutIsValid(q, e);
    case Read => if |q.items| > 0 { TakeIsValid(q); }
  }

  lemma {:induction false} AfterIsValid(steps: seq<Step>)
    ensures After(steps).Valid()
  {
    if steps != [] {
      AfterIsValid(steps[..|steps| - 1]);
      NextIsValid(After(steps[..|steps| - 1]), steps[|steps| - 1]);
    }
  }

  /** The events at these places. */
  function ReadOf(offered: seq<Envelope>, taken: seq<int>): seq<Envelope>
    requires forall i | 0 <= i < |taken| :: 0 <= taken[i] < |offered|
  {
    if taken == [] then []
    else ReadOf(offered, taken[..|taken| - 1]) + [offered[taken[|taken| - 1]]]
  }

  /** What the consumer has read, in the order it read. */
  function ReadBy(steps: seq<Step>): seq<Envelope> {
    AfterIsValid(steps);
    ReadOf(After(steps).offered, After(steps).taken)
  }

  lemma ReadsItsFirst(steps: seq<Step>)
    requires |After(steps).items| > 0
    ensures ReadBy(steps + [Read]) == ReadBy(steps) + [After(steps).items[0]]
  {
    var q := After(steps);
    AfterIsValid(steps);
    AfterNext(steps, Read);
    assert q.Take().taken[..|q.taken|] == q.taken;
  }

  lemma ItemsAfterOffer(steps: seq<Step>, e: Envelope)
    ensures var items := After(steps).items;
      After(steps + [Accept(e)]).items == if |items| < QUEUE_SIZE then items + [e] else items[1..] + [e]
  {
    AfterIsValid(steps);
    AfterNext(steps, Accept(e));
  }

  /** A subscriber's queue, with all that happened to it. */
  class EventQueue {
    var items: seq<Envelope>
    ghost const topic: Option<string>
    ghost const since: nat
    ghost var steps: seq<Step>

    ghost predicate Valid()
      reads this
    {
      items == After(steps).items
    }

    constructor (ghost topic: Option<string>, ghost since: nat)
      ensures Valid() && steps == [] && this.topic == topic && this.since == since
    {
      items, steps := [], [];
      this.topic, this.since := topic, since;
    }

    /** `_offer`. */
    method Offer(e: Envelope)
      requires Valid()
      modifies this
      ensures Valid() && steps == old(steps) + [Accept(e)]
    {
      ItemsAfterOffer(steps, e);
      steps := steps + [Accept(e)];
      if |items| < QUEUE_SIZE {
        items := items + [e];
        return;
      }
      items := items[1..];
      items := items + [e];
    }

    /** The consumer's `get`. */
    method Get() returns (e: Envelope)
      requires Valid() && items != []
      modifies this
      ensures Valid() && steps == old(steps) + [Read] && e == old(items)[0]
      ensures ReadBy(steps) == ReadBy(old(steps)) + [e]
    {
      AfterNext(steps, Read);
      ReadsItsFirst(steps);
      e := items[0];
      steps, items := steps + [Read], items[1..];
    }
  }

  // ----- nothing is lost while at most `QUEUE_SIZE` events are outstanding

  /** A strictly increasing sequence of n naturals below n counts up from zero. */
  lemma {:induction false} CountsUp(taken: seq<int>, i: nat)
    requires i < |taken| && (forall j | 0 <= j < |taken| :: 0 <= taken[j] < |taken|)
    requires forall j, k | 0 <= j < k < |taken| :: taken[j] < taken[k]
    ensures taken[i] == i
  {
    AtLeastIndex(taken, i);
    LeavesRoom(taken, i);
  }

  lemma {:induction false} AtLeastIndex(taken: seq<int>, i: nat)
    requires i < |taken| && (forall j | 0 <= j < |taken| :: 0 <= taken[j] < |taken|)
    requires forall j, k | 0 <= j < k < |taken| :: taken[j] < taken[k]
    ensures taken[i] >= i
  {
    if i > 0 {
      AtLeastIndex(taken, i - 1);
    }
  }

  lemma {:induction false} LeavesRoom(taken: seq<int>, i: nat)
    requires i < |taken| && (forall j | 0 <= j < |taken| :: 0 <= taken[j] < |taken|)
    requires forall j, k | 0 <= j < k < |taken| :: taken[j] < taken[k]
    ensures taken[i] <= i
    decreases |taken| - i
  {
    if i + 1 < |taken| {
      LeavesRoom(taken, i + 1);
    }
  }

  lemma {:induction false} ReadsInOrder(offered: seq<Envelope>, taken: seq<int>)
    requires |taken| <= |offered| && forall i | 0 <= i < |taken| :: taken[i] == i
    ensures ReadOf(offered, taken) == offered[..|taken|]
  {
    if taken != [] {
      ReadsInOrder(offered, taken[..|taken| - 1]);
      assert offered[..|taken|] == offered[..|taken| - 1] + [offered[|taken| - 1]];
    }
  }

  /** As long as nothing was dropped, what was read followed by what is queued is everything offered. */
  lemma NothingLost(q: Queue)
    requires q.Valid() && q.dropped == 0
    ensures ReadOf(q.offered, q.taken) + q.items == q.offered
  {
    forall i | 0 <= i < |q.taken|
      ensures q.taken[i] == i
    {
      CountsUp(q.taken, i);
    }
    ReadsInOrder(q.offered, q.taken);
    assert q.offered[..|q.taken|] + q.offered[|q.taken|..] == q.offered;
  }

  function Accepted(steps: seq<Step>): seq<Envelope> {
    if steps == [] then []
    else
      var last := steps[|steps| - 1];
      Accepted(steps[..|steps| - 1]) + if last.Accept? then [last.e] else []
  }

  lemma {:induction false} OfferedIsAccepted(steps: seq<Step>)
    ensures After(steps).offered == Accepted(steps)
  {
    if steps != [] {
      var front := steps[..|steps| - 1];
      OfferedIsAccepted(front);
      assert Accepted(front) + [] == Accepted(front);
    }
  }

  /** At no point of the run were more events outstanding than the queue holds. */
  predicate KeepsUp(steps: seq<Step>) {
    steps == []
    || (KeepsUp(steps[..|steps| - 1]) && After(steps).Outstanding() <= QUEUE_SIZE)
  }

  lemma {:induction false} DropsOnlyWhenBehind(steps: seq<Step>)
    ensures After(steps).dropped == 0 <==> KeepsUp(steps)
  {
    AfterIsValid(steps);
    if steps != [] {
      AfterIsValid(steps[..|steps| - 1]);
      DropsOnlyWhenBehind(steps[..|steps| - 1]);
    }
  }

  lemma {:induction false} ReadSize(offered: seq<Envelope>, taken: seq<int>)
    requires forall i | 0 <= i < |taken| :: 0 <= taken[i] < |offered|
    ensures |ReadOf(offered, taken)| == |taken|
  {
    if taken != [] {
      ReadSize(offered, taken[..|taken| - 1]);
    }
  }

  /**
   * A subscriber loses nothing if and only if at most `QUEUE_SIZE` events are ever outstanding: then
   * what it read, followed by what is queued, is everything it was offered, in order.
   */
  lemma LosesNothingWhileKeepingUp(steps: seq<Step>)
    ensures KeepsUp(steps) <==> ReadBy(steps) + After(steps).items == Accepted(steps)
  {
    var q := After(steps);
    AfterIsValid(steps);
    OfferedIsAccepted(steps);
    DropsOnlyWhenBehind(steps);
    ReadSize(q.offered, q.taken);
    if q.dropped == 0 {
      NothingLost(q);
    }
  }
}
