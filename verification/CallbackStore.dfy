/** The event store of the operator's screen: deduplication and publishing (micro-ui/app/store.py). */
module CallbackStores {
  import opened Common
  import opened EventQueues

  function EventIds(events: seq<Envelope>): set<string> {
    if events == [] then {} else EventIds(events[..|events| - 1]) + {events[|events| - 1].eventId}
  }

  function Keys(events: seq<Envelope>): set<string> {
    if events == [] then {} else Keys(events[..|events| - 1]) + {events[|events| - 1].idempotencyKey}
  }

  predicate IsKnown(events: seq<Envelope>, e: Envelope) {
    e.eventId in EventIds(events) || e.idempotencyKey in Keys(events)
  }

  /** Every event was new when it came. */
  predicate AllNew(events: seq<Envelope>) {
    events == [] || (AllNew(events[..|events| - 1]) && !IsKnown(events[..|events| - 1], events[|events| - 1]))
  }

  lemma {:induction false} KnownMeans(events: seq<Envelope>, e: Envelope)
    ensures IsKnown(events, e) <==>
      exists i | 0 <= i < |events| :: events[i].eventId == e.eventId || events[i].idempotencyKey == e.idempotencyKey
  {
    if events != [] {
      var front := events[..|events| - 1];
      KnownMeans(front, e);
      if IsKnown(front, e) {
        var i :| 0 <= i < |front| && (front[i].eventId == e.eventId || front[i].idempotencyKey == e.idempotencyKey);
        assert events[i] == front[i];
      }
    }
  }

  /** No two accepted events share an id or an idempotency key. */
  lemma {:induction false} AcceptedAreDistinct(events: seq<Envelope>, i: nat, j: nat)
    requires AllNew(events) && i < j < |events|
    ensures events[i].eventId != events[j].eventId && events[i].idempotencyKey != events[j].idempotencyKey
  {
    var front := events[..|events| - 1];
    if j < |front| {
      AcceptedAreDistinct(front, i, j);
    } else {
      KnownMeans(front, events[j]);
      assert front[i] == events[i];
    }
  }

  /** A subscriber was offered exactly the accepted events of its topic since it subscribed. */
  ghost predicate UpToDate(q: EventQueue, events: seq<Envelope>)
    reads q
  {
    q.Valid() && q.since <= |events| && Accepted(q.steps) == Matching(events[q.since..], q.topic)
  }

  ghost predicate AllUpToDate(queues: set<EventQueue>, events: seq<Envelope>)
    reads queues
  {
    forall q | q in queues :: UpToDate(q, events)
  }

  function Bucket(eventsBySession: map<string, seq<Envelope>>, s: string): seq<Envelope> {
    if s in eventsBySession then eventsBySession[s] else []
  }

  /** Every session's bucket holds its accepted events in order. */
  ghost predicate Filed(eventsBySession: map<string, seq<Envelope>>, events: seq<Envelope>) {
    forall s: string :: Bucket(eventsBySession, s) == Matching(events, Some(s))
  }

  lemma NewMore(events: seq<Envelope>, e: Envelope)
    ensures EventIds(events + [e]) == EventIds(events) + {e.eventId}
    ensures Keys(events + [e]) == Keys(events) + {e.idempotencyKey}
    ensures AllNew(events) && !IsKnown(events, e) ==> AllNew(events + [e])
  {
    assert (events + [e])[..|events|] == events;
  }

  lemma OfferedMore(front: seq<Envelope>, e: Envelope, since: nat, topic: Option<string>)
    requires since <= |front|
    ensures Matching((front + [e])[since..], topic)
         == if Matches(e, topic) then Matching(front[since..], topic) + [e] else Matching(front[since..], topic)
  {
    assert (front + [e])[since..] == front[since..] + [e];
    MatchingAppend(front[since..], e, topic);
  }

  lemma AcceptedMore(steps: seq<Step>, e: Envelope)
    ensures Accepted(steps + [Accept(e)]) == Accepted(steps) + [e]
  {
    assert (steps + [Accept(e)])[..|steps|] == steps;
  }

  /**
   * A subscriber that keeps up, and no other, gets every event of its topic accepted since it subscribed,
   * in order: what it has read, followed by what is queued for it.
   */
  lemma SubscriberLosesNothing(q: EventQueue, events: seq<Envelope>)
    requires UpToDate(q, events)
    ensures KeepsUp(q.steps) <==> ReadBy(q.steps) + q.items == Matching(events[q.since..], q.topic)
  {
    LosesNothingWhileKeepingUp(q.steps);
  }

  lemma FiledMore(buckets: map<string, seq<Envelope>>, events: seq<Envelope>, e: Envelope)
    requires Filed(buckets, events)
    ensures Filed(buckets[e.sessionId := Bucket(buckets, e.sessionId) + [e]], events + [e])
  {
    forall s: string
      ensures Bucket(buckets[e.sessionId := Bucket(buckets, e.sessionId) + [e]], s) == Matching(events + [e], Some(s))
    {
      MatchingAppend(events, e, Some(s));
    }
  }

  function Subscribers(bySession: map<string, set<EventQueue>>, s: string): set<EventQueue> {
    if s in bySession then bySession[s] else {}
  }

  /** The live queues are those subscribed, each under its own topic; no session is left without subscribers. */
  ghost predicate IsRegistry(bySession: map<string, set<EventQueue>>, globals: set<EventQueue>, live: set<EventQueue>) {
    && globals <= live && (forall q | q in globals :: q.topic == None)
    && (forall s | s in bySession :: bySession[s] != {} && bySession[s] <= live)
    && (forall s | s in bySession :: forall q | q in bySession[s] :: q.topic == Some(s))
    && (forall q | q in live :: if q.topic.None? then q in globals else q in Subscribers(bySession, q.topic.value))
  }

  /** `unsubscribe` on the dictionary of subscribers. */
  function Without(bySession: map<string, set<EventQueue>>, s: string, q: EventQueue): map<string, set<EventQueue>>
    requires s in bySession
  {
    if bySession[s] - {q} == {} then bySession - {s} else bySession[s := bySession[s] - {q}]
  }

  lemma RegistryMore(bySession: map<string, set<EventQueue>>, globals: set<EventQueue>, live: set<EventQueue>,
                     s: string, q: EventQueue)
    requires IsRegistry(bySession, globals, live) && q.topic == Some(s) && q !in live
    ensures IsRegistry(bySession[s := Subscribers(bySession, s) + {q}], globals, live + {q})
  {
  }

  lemma RegistryLess(bySession: map<string, set<EventQueue>>, globals: set<EventQueue>, live: set<EventQueue>,
                     s: string, q: EventQueue)
    requires IsRegistry(bySession, globals, live) && s in bySession
    ensures IsRegistry(Without(bySession, s, q), globals, live - if q in bySession[s] then {q} else {})
  {
    var less, left := Without(bySession, s, q), live - if q in bySession[s] then {q} else {};
    forall p | p in left
      ensures if p.topic.None? then p in globals else p in Subscribers(less, p.topic.value)
    {
      if p.topic.Some? {
        assert p in Subscribers(bySession, p.topic.value);
        assert p.topic.value == s ==> p in bySession[s] - {q};
      }
    }
    forall t | t in less
      ensures less[t] != {} && less[t] <= left
    {
      forall p | p in less[t]
        ensures p in left
      {
        assert p in bySession[t] && p.topic == Some(t);
      }
    }
  }

  class CallbackStore {
    var eventsBySession: map<string, seq<Envelope>>
    var seenEventIds: set<string>
    var seenIdempotencyKeys: set<string>
    var subscribersBySession: map<string, set<EventQueue>>
    var globalSubscribers: set<EventQueue>
    /** Every event accepted so far, in order, and the queues still subscribed. */
    ghost var accepted: seq<Envelope>
    ghost var live: set<EventQueue>

    ghost predicate Registered()
      reads this`subscribersBySession, this`globalSubscribers, this`live
    {
      IsRegistry(subscribersBySession, globalSubscribers, live)
    }

    ghost predicate Recorded()
      reads this`seenEventIds, this`seenIdempotencyKeys, this`eventsBySession, this`accepted
    {
      && AllNew(accepted) && seenEventIds == EventIds(accepted) && seenIdempotencyKeys == Keys(accepted)
      && Filed(eventsBySession, accepted)
    }

    ghost predicate Served()
      reads this`accepted, this`live, live
    {
      AllUpToDate(live, accepted)
    }

    /** What subscribing and unsubscribing may touch; it leaves `Recorded` alone by their frames. */
    ghost predicate Linked()
      reads this`subscribersBySession, this`globalSubscribers, this`accepted, this`live, live
    {
      Registered() && Served()
    }

    ghost predicate Valid()
      reads this, live
    {
      Recorded() && Linked()
    }

    constructor ()
      ensures Valid() && accepted == [] && live == {}
    {
      eventsBySession, seenEventIds, seenIdempotencyKeys := map[], {}, {};
      subscribersBySession, globalSubscribers := map[], {};
      accepted, live := [], {};
    }

    /** The loop over one set of subscribers. */
    method OfferAll(queues: set<EventQueue>, e: Envelope)
      requires forall q | q in queues :: q.Valid()
      modifies queues
      ensures forall q | q in queues :: q.Valid() && q.steps == old(q.steps) + [Accept(e)]
    {
      var todo := queues;
      while todo != {}
        invariant todo <= queues
        invariant forall q | q in queues :: q.Valid()
        invariant forall q | q in todo :: q.steps == old(q.steps)
        invariant forall q | q in queues - todo :: q.steps == old(q.steps) + [Accept(e)]
        decreases |todo|
      {
        var q :| q in todo;
        q.Offer(e);
        todo := todo - {q};
      }
    }

    /** The dictionaries after a new event. */
    method Record(e: Envelope)
      requires Recorded() && !IsKnown(accepted, e)
      modifies this`seenEventIds, this`seenIdempotencyKeys, this`eventsBySession, this`accepted
      ensures Recorded() && accepted == old(accepted) + [e]
    {
      NewMore(accepted, e);
      FiledMore(eventsBySession, accepted, e);
      seenEventIds := seenEventIds + {e.eventId};
      seenIdempotencyKeys := seenIdempotencyKeys + {e.idempotencyKey};
      eventsBySession := eventsBySession[e.sessionId := Bucket(eventsBySession, e.sessionId) + [e]];
      accepted := accepted + [e];
    }

    /** `_publish_locked`. */
    method Publish(e: Envelope, ghost front: seq<Envelope>)
      requires Registered() && accepted == front + [e] && AllUpToDate(live, front)
      modifies live
      ensures Served()
      ensures forall q | q in live :: q.steps == old(q.steps) + if Matches(e, q.topic) then [Accept(e)] else []
    {
      OfferAll(Subscribers(subscribersBySession, e.sessionId), e);
      OfferAll(globalSubscribers, e);
      forall q | q in live
        ensures UpToDate(q, accepted)
      {
        OfferedMore(front, e, q.since, q.topic);
        AcceptedMore(old(q.steps), e);
      }
    }

    /** `add`: an event is new if and only if no accepted event has its id or its key. */
    method Add(e: Envelope) returns (isNew: bool)
      requires Valid()
      modifies this, live
      ensures Valid() && live == old(live)
      ensures isNew <==> !IsKnown(old(accepted), e)
      ensures accepted == if isNew then old(accepted) + [e] else old(accepted)
      ensures isNew ==> forall q | q in live :: q.steps == old(q.steps) + if Matches(e, q.topic) then [Accept(e)] else []
      ensures !isNew ==> unchanged(this) && forall q | q in live :: unchanged(q)
    {
      if e.eventId in seenEventIds || e.idempotencyKey in seenIdempotencyKeys {
        return false;
      }
      ghost var front := accepted;
      Record(e);
      Publish(e, front);
      return true;
    }

    /** `subscribe`. */
    method Subscribe(s: string) returns (q: EventQueue)
      requires Linked()
      modifies this`subscribersBySession, this`live
      ensures Linked() && fresh(q) && q in live && q.topic == Some(s) && q.since == |accepted| && q.steps == []
      ensures live == old(live) + {q}
    {
      q := new EventQueue(Some(s), |accepted|);
      RegistryMore(subscribersBySession, globalSubscribers, live, s, q);
      subscribersBySession := subscribersBySession[s := Subscribers(subscribersBySession, s) + {q}];
      live := live + {q};
    }

    /** `subscribe_all`. */
    method SubscribeAll() returns (q: EventQueue)
      requires Linked()
      modifies this`globalSubscribers, this`live
      ensures Linked() && fresh(q) && q in live && q.topic == None && q.since == |accepted| && q.steps == []
      ensures live == old(live) + {q}
    {
      q := new EventQueue(None, |accepted|);
      globalSubscribers := globalSubscribers + {q};
      live := live + {q};
    }

    /** `unsubscribe`. */
    method Unsubscribe(s: string, q: EventQueue)
      requires Linked()
      modifies this`subscribersBySession, this`live
      ensures Linked()
      ensures live == old(live) - if q in Subscribers(old(subscribersBySession), s) then {q} else {}
    {
      if s !in subscribersBySession {
        return;
      }
      RegistryLess(subscribersBySession, globalSubscribers, live, s, q);
      if q in subscribersBySession[s] {
        live := live - {q};
      }
      subscribersBySession := Without(subscribersBySession, s, q);
    }

    /** `unsubscribe_all`. */
    method UnsubscribeAll(q: EventQueue)
      requires Linked()
      modifies this`globalSubscribers, this`live
      ensures Linked()
      ensures live == old(live) - if q in old(globalSubscribers) then {q} else {}
    {
      if q in globalSubscribers {
        live := live - {q};
      }
      globalSubscribers := globalSubscribers - {q};
    }

    /** `list_events` for one session: its accepted events in order. */
    method ListEvents(s: string) returns (events: seq<Envelope>)
      requires Recorded()
      ensures events == Matching(accepted, Some(s))
    {
      events := Bucket(eventsBySession, s);
    }
  }
}
