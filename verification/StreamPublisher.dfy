/** The batching publisher of agent output (`_AgentStreamPublisher` in buyer/app/runner.py). */
module StreamPublisher {
  import opened Common

  datatype Item = Item(text: string)

  /** An item with the source and stream it was published under. */
  datatype Published = Published(source: string, stream: string, item: Item)

  datatype Payload = Payload(step: int, source: string, stream: string, sequence: nat, items: seq<Item>)

  function OrUnknown(name: string): string {
    if name == "" then "unknown" else name
  }

  /** The items of one payload or batch, each with the names it is sent under. */
  function Tagged(source: string, stream: string, items: seq<Item>): seq<Published> {
    if items == [] then []
    else
      Tagged(source, stream, items[..|items| - 1])
      + [Published(OrUnknown(source), OrUnknown(stream), items[|items| - 1])]
  }

  /** The items of all payloads in sequence order. */
  function Flatten(payloads: seq<Payload>): seq<Published> {
    if payloads == [] then []
    else
      var last := payloads[|payloads| - 1];
      Flatten(payloads[..|payloads| - 1]) + Tagged(last.source, last.stream, last.items)
  }

  function Waiting(source: Option<string>, stream: Option<string>, items: seq<Item>): seq<Published> {
    if source.None? || stream.None? then [] else Tagged(source.value, stream.value, items)
  }

  /** Sequence numbers run 1, 2, 3 and so on, and every payload holds one to `limit` items. */
  ghost predicate WellNumbered(payloads: seq<Payload>, step: int, limit: nat) {
    forall i | 0 <= i < |payloads| ::
      payloads[i].sequence == i + 1 && payloads[i].step == step && 1 <= |payloads[i].items| <= limit
  }

  lemma WellNumberedAppend(payloads: seq<Payload>, p: Payload, step: int, limit: nat)
    requires WellNumbered(payloads, step, limit)
    requires p.sequence == |payloads| + 1 && p.step == step && 1 <= |p.items| <= limit
    ensures WellNumbered(payloads + [p], step, limit)
  {
  }

  lemma FlattenAppend(payloads: seq<Payload>, p: Payload)
    ensures Flatten(payloads + [p]) == Flatten(payloads) + Tagged(p.source, p.stream, p.items)
  {
    assert (payloads + [p])[..|payloads|] == payloads;
  }

  lemma {:induction false} TaggedOrUnknown(source: string, stream: string, items: seq<Item>)
    ensures Tagged(OrUnknown(source), OrUnknown(stream), items) == Tagged(source, stream, items)
  {
    if items != [] {
      TaggedOrUnknown(source, stream, items[..|items| - 1]);
    }
  }

  /** One more item waits: what was published grows by that item. */
  lemma WaitingAppend(front: seq<Published>, source: string, stream: string, items: seq<Item>, item: Item)
    ensures front + Tagged(source, stream, items + [item])
         == front + Tagged(source, stream, items) + [Published(OrUnknown(source), OrUnknown(stream), item)]
  {
    assert (items + [item])[..|items|] == items;
  }

  lemma FlattenOne(payloads: seq<Payload>, p: Payload, item: Item)
    requires p.items == [item]
    ensures Flatten(payloads + [p])
         == Flatten(payloads) + [Published(OrUnknown(p.source), OrUnknown(p.stream), item)]
  {
    FlattenAppend(payloads, p);
    assert Tagged(p.source, p.stream, [item]) == [Published(OrUnknown(p.source), OrUnknown(p.stream), item)];
  }

  /** Nothing lost, repeated or reordered: the payloads, then the waiting items, are what was published. */
  ghost predicate Accounts(built: seq<Payload>, source: Option<string>, stream: Option<string>, items: seq<Item>,
                           published: seq<Published>) {
    && Flatten(built) + Waiting(source, stream, items) == published
    && (items != [] <==> source.Some?) && (items != [] <==> stream.Some?)
  }

  /** The waiting items move into a payload. */
  lemma TakeAccounts(built: seq<Payload>, source: string, stream: string, p: Payload, published: seq<Published>)
    requires Accounts(built, Some(source), Some(stream), p.items, published)
    requires p.source == OrUnknown(source) && p.stream == OrUnknown(stream)
    ensures Accounts(built + [p], None, None, [], published)
  {
    FlattenAppend(built, p);
    TaggedOrUnknown(source, stream, p.items);
    assert published + [] == published;
  }

  /** A cancelled timer is as good as none: it returns without flushing. */
  datatype Timer = Off | Armed

  class AgentStreamPublisher {
    const step: int
    const hasCallback: bool
    const batchSize: int
    var sequence: nat
    var pendingSource: Option<string>
    var pendingStream: Option<string>
    var pendingItems: seq<Item>
    var flushTimer: Timer
    /** Everything published so far, and every payload built so far, in order. */
    ghost var published: seq<Published>
    ghost var built: seq<Payload>

    function Limit(): nat {
      if batchSize < 1 then 1 else batchSize
    }

    ghost predicate Conserves()
      reads this
    {
      && Accounts(built, pendingSource, pendingStream, pendingItems, published)
      && sequence == |built| && WellNumbered(built, step, Limit())
    }

    /** Between operations, items wait only while a flush timer is armed and the batch is not full. */
    ghost predicate Valid()
      reads this
    {
      && Conserves()
      && (pendingItems != [] <==> flushTimer == Armed)
      && (pendingItems != [] ==> hasCallback) && |pendingItems| < Limit()
    }

    constructor (step: int, hasCallback: bool, batchSize: int)
      ensures Valid() && published == [] && built == [] && pendingItems == []
      ensures this.step == step && this.hasCallback == hasCallback && this.batchSize == batchSize
    {
      this.step, this.hasCallback, this.batchSize := step, hasCallback, batchSize;
      sequence, pendingSource, pendingStream, pendingItems, flushTimer := 0, None, None, [], Off;
      published, built := [], [];
    }

    /** `_build_pending_payload_locked` followed by `_clear_pending_locked`. */
    method TakePending(cancelTimer: bool) returns (payload: Payload)
      requires Conserves() && 1 <= |pendingItems| <= Limit()
      modifies this
      ensures Conserves() && published == old(published) && built == old(built) + [payload]
      ensures payload == Payload(step, OrUnknown(old(pendingSource).value), OrUnknown(old(pendingStream).value),
                                 old(sequence) + 1, old(pendingItems))
      ensures pendingItems == [] && flushTimer == if cancelTimer then Off else old(flushTimer)
    {
      payload := Payload(step, OrUnknown(pendingSource.value), OrUnknown(pendingStream.value), sequence + 1, pendingItems);
      TakeAccounts(built, pendingSource.value, pendingStream.value, payload, published);
      WellNumberedAppend(built, payload, step, Limit());
      sequence, built := sequence + 1, built + [payload];
      pendingSource, pendingStream, pendingItems := None, None, [];
      flushTimer := if cancelTimer then Off else flushTimer;
    }

    /** The branch of `publish` for a publisher without a callback: the item is logged on its own. */
    method PublishAlone(source: string, stream: string, item: Item) returns (payload: Payload)
      requires Valid() && !hasCallback
      modifies this
      ensures Valid() && built == old(built) + [payload]
      ensures payload == Payload(step, source, stream, old(sequence) + 1, [item])
      ensures published == old(published) + [Published(OrUnknown(source), OrUnknown(stream), item)]
    {
      payload := Payload(step, source, stream, sequence + 1, [item]);
      assert Flatten(built) == published;
      FlattenOne(built, payload, item);
      WellNumberedAppend(built, payload, step, Limit());
      sequence, built := sequence + 1, built + [payload];
      published := published + [Published(OrUnknown(source), OrUnknown(stream), item)];
    }

    /** Sends the batch off when it belongs to another source or stream. */
    method SwitchBatch(source: string, stream: string) returns (payloads: seq<Payload>)
      requires Valid()
      modifies this
      ensures Valid() && published == old(published) && built == old(built) + payloads
      ensures pendingItems != [] ==> pendingSource == Some(source) && pendingStream == Some(stream)
      ensures payloads != [] <==> old(pendingItems) != [] && !(old(pendingSource) == Some(source) && old(pendingStream) == Some(stream))
    {
      if pendingItems != [] && (pendingSource != Some(source) || pendingStream != Some(stream)) {
        var payload := TakePending(true);
        return [payload];
      }
      return [];
    }

    /** Adds an item to the batch of its own source and stream, and arms the timer of a new batch. */
    method AddPending(source: string, stream: string, item: Item)
      requires Valid() && hasCallback
      requires pendingItems != [] ==> pendingSource == Some(source) && pendingStream == Some(stream)
      modifies this
      ensures Conserves() && built == old(built) && flushTimer == Armed
      ensures pendingItems == old(pendingItems) + [item]
      ensures published == old(published) + [Published(OrUnknown(source), OrUnknown(stream), item)]
    {
      WaitingAppend(Flatten(built), source, stream, pendingItems, item);
      if pendingItems == [] {
        pendingSource, pendingStream, flushTimer := Some(source), Some(stream), Armed;
      }
      pendingItems := pendingItems + [item];
      published := published + [Published(OrUnknown(source), OrUnknown(stream), item)];
    }

    /** Sends the batch off when it is full. */
    method FlushIfFull() returns (payloads: seq<Payload>)
      requires Conserves() && hasCallback && 1 <= |pendingItems| <= Limit() && flushTimer == Armed
      modifies this
      ensures Valid() && published == old(published) && built == old(built) + payloads
      ensures payloads != [] <==> |old(pendingItems)| >= batchSize
    {
      if |pendingItems| >= batchSize {
        var payload := TakePending(true);
        return [payload];
      }
      return [];
    }

    /** The locked part of `publish`; the payloads are sent once the lock is released. */
    method Publish(source: string, stream: string, item: Item) returns (payloads: seq<Payload>)
      requires Valid()
      modifies this
      ensures Valid() && built == old(built) + payloads
      ensures published == old(published) + [Published(OrUnknown(source), OrUnknown(stream), item)]
    {
      if !hasCallback {
        var payload := PublishAlone(source, stream, item);
        return [payload];
      }
      var switched := SwitchBatch(source, stream);
      AddPending(source, stream, item);
      var full := FlushIfFull();
      payloads := switched + full;
      Associative(old(built), switched, full);
    }

    /** `_flush_pending`, run by the timer. */
    method FlushPending() returns (payload: Option<Payload>)
      requires Valid() && flushTimer == Armed
      modifies this
      ensures Valid() && published == old(published) && pendingItems == []
      ensures payload.Some? && built == old(built) + [payload.value]
    {
      var taken := TakePending(false);
      flushTimer := Off;
      payload := Some(taken);
    }

    /** `aclose` leaves nothing behind. */
    method Close() returns (payload: Option<Payload>)
      requires Valid()
      modifies this
      ensures Valid() && published == old(published)
      ensures pendingItems == [] && flushTimer == Off && Flatten(built) == published
      ensures built == old(built) + if payload.Some? then [payload.value] else []
    {
      if pendingItems != [] {
        var taken := TakePending(true);
        return Some(taken);
      }
      pendingSource, pendingStream, flushTimer := None, None, Off;
      return None;
    }
  }
}
