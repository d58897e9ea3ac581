/** Buyer callbacks and their effect on the manifest (eval_service/app/callbacks.py). */
module Callbacks {
  import opened Common
  import opened RunManifest
  import PyText

  datatype Reject = InvalidRunId | NotFound | SessionMismatch | BadPayload

  datatype Outcome = Delivered(state: CaseState) | Rejected(reason: Reject)

  // ----- payload checks

  predicate HasText(e: Envelope, field: string) {
    field in e.payload && e.payload[field].Text? && e.payload[field].text != ""
  }

  function PayloadStatus(e: Envelope): Option<string> {
    if HasText(e, "status") then Some(PyText.Lower(PyText.Strip(e.payload["status"].text))) else None
  }

  predicate ValidPayload(e: Envelope) {
    match e.eventType
    case PaymentReadyEvent => HasText(e, "order_id") && HasText(e, "order_id_host") && HasText(e, "message")
    case PaymentUnverified =>
      && HasText(e, "order_id") && HasText(e, "order_id_host") && HasText(e, "provider")
      && HasText(e, "message") && HasText(e, "reason")
    case ScenarioFinished =>
      && PayloadStatus(e) in {Some("completed"), Some("failed"), Some("unverified")}
      && HasText(e, "message")
    case _ => true
  }

  predicate ValidSession(c: RunCase, e: Envelope) {
    c.sessionId == None || c.sessionId == Some(e.sessionId)
  }

  // ----- what one callback asks the store to change

  function Resolved(state: CaseState, finishedAt: Time, error: Option<string>): CasePatch {
    NO_CHANGE.(state := Set(state), finishedAt := Set(Some(finishedAt)), waitingReplyId := Set(None),
               error := Set(error))
  }

  function StateUpdates(e: Envelope, c: RunCase): Result<CasePatch, Reject>
    requires ValidPayload(e)
  {
    if IsTerminal(c.state) then Ok(NO_CHANGE.(sessionId := Set(c.sessionId)))
    else
      match e.eventType
      case AskUser =>
        if HasText(e, "reply_id")
        then Ok(NO_CHANGE.(state := Set(WaitingUser), waitingReplyId := Set(Some(e.payload["reply_id"].text))))
        else Err(BadPayload)
      case AgentStepStarted => Ok(Resumed(c))
      case HandoffResumed => Ok(Resumed(c))
      case PaymentReadyEvent => Ok(NO_CHANGE.(state := Set(PaymentReady), waitingReplyId := Set(None)))
      case PaymentUnverified =>
        Ok(Resolved(Unverified, e.occurredAt,
                    Some("payment unverified: " + e.payload["reason"].text + ": " + e.payload["message"].text)))
      case ScenarioFinished =>
        var message := e.payload["message"].text;
        if PayloadStatus(e) == Some("failed") then Ok(Resolved(Failed, e.occurredAt, Some(message)))
        else if PayloadStatus(e) == Some("unverified")
        then Ok(Resolved(Unverified, e.occurredAt, Some("payment unverified: " + message)))
        else Ok(Resolved(Finished, e.occurredAt, None))
      case _ => Ok(NO_CHANGE)
  }

  function Resumed(c: RunCase): CasePatch {
    if c.state == WaitingUser || c.waitingReplyId.Some?
    then NO_CHANGE.(state := Set(Running), waitingReplyId := Set(None))
    else NO_CHANGE
  }

  /** One delivery of a callback: the manifest after it, and what the sender is told. */
  function Receive(r: Redactor, m: Manifest, caseId: string, e: Envelope, now: Time): (Manifest, Outcome) {
    match FindIndex(m.cases, caseId)
    case None => (m, Rejected(NotFound))
    case Some(i) =>
      if !ValidSession(m.cases[i], e) then (m, Rejected(SessionMismatch))
      else if !ValidPayload(e) then (m, Rejected(BadPayload))
      else
        var stamped := e.(runId := Some(m.runId), caseId := Some(caseId));
        match StateUpdates(stamped, m.cases[i])
        case Err(reason) => (m, Rejected(reason))
        case Ok(patch) =>
          match AppendEvent(r, m, caseId, stamped, patch, now)
          case Err(_) => (m, Rejected(NotFound))
          case Ok(m') => (m', Delivered(m'.cases[i].state))
  }

  /** The handler as it runs on the store. */
  method ReceiveBuyerCallback(store: RunStore, runId: string, caseId: string, e: Envelope, now: Time)
    returns (outcome: Outcome)
    requires runId in store.manifests ==> store.manifests[runId].runId == runId && ValidIds(store.manifests[runId].cases)
    modifies store
    ensures runId !in old(store.manifests) ==>
              store.manifests == old(store.manifests)
              && outcome == Rejected(if IsPathSegment(runId) then NotFound else InvalidRunId)
    ensures runId in old(store.manifests) ==>
              && runId in store.manifests
              && (store.manifests[runId], outcome) == Receive(store.redactor, old(store.manifests)[runId], caseId, e, now)
              && store.manifests == old(store.manifests)[runId := store.manifests[runId]]
  {
    var read := store.ReadManifest(runId);
    if read.Err? {
      return Rejected(if read.error == InvalidId then InvalidRunId else NotFound);
    }
    var manifest := read.value;
    var index := RunStore.FindCaseIndex(manifest.cases, caseId);
    if index.None? {
      assert store.manifests == old(store.manifests)[runId := store.manifests[runId]];
      return Rejected(NotFound);
    }
    var c := manifest.cases[index.value];
    if !ValidSession(c, e) {
      return Rejected(SessionMismatch);
    }
    if !ValidPayload(e) {
      return Rejected(BadPayload);
    }
    var stamped := e.(runId := Some(runId), caseId := Some(caseId));
    var updates := StateUpdates(stamped, c);
    if updates.Err? {
      return Rejected(updates.error);
    }
    var appended := store.AppendCallbackEvent(runId, caseId, stamped, updates.value, now);
    return Delivered(appended.value.cases[index.value].state);
  }

  // ----- at least once is as good as exactly once

  /** Anything that rewrites a manifest: a callback, any other case update, or a status write. */
  datatype Op =
    | Deliver(caseId: string, e: Envelope, now: Time)
    | Update(caseId: string, patch: CasePatch, now: Time)
    | WriteStatus(status: RunStatus, now: Time)

  function Apply(r: Redactor, m: Manifest, op: Op): Manifest {
    match op
    case Deliver(id, e, now) => Receive(r, m, id, e, now).0
    case Update(id, patch, now) =>
      (match UpdateCase(r, m, id, patch, None, now) case Ok(m') => m' case Err(_) => m)
    case WriteStatus(status, now) => m.(status := status, updatedAt := now)
  }

  function Run(r: Redactor, m: Manifest, log: seq<Op>): Manifest
    decreases log
  {
    if log == [] then m else Run(r, Apply(r, m, log[0]), log[1..])
  }

  predicate IsDelivered(r: Redactor, m: Manifest, op: Op)
    requires op.Deliver?
  {
    Receive(r, m, op.caseId, op.e, op.now).1.Delivered?
  }

  /** What identifies a delivery: the case, the event id and the key as it is stored. */
  function Identity(r: Redactor, op: Op): (string, string, string)
    requires op.Deliver?
  {
    (op.caseId, op.e.eventId, r.Key(op.e.key))
  }

  /** The case holds an event that the store takes for the one with this identity. */
  predicate IsStored(r: Redactor, m: Manifest, id: (string, string, string)) {
    var at := FindIndex(m.cases, id.0);
    && at.Some?
    && exists k | 0 <= k < |m.cases[at.value].events| ::
         && var s := m.cases[at.value].events[k];
         && IsDigest(s.key) && (s.eventId == id.1 || s.key == id.2)
  }

  lemma FindIndexStable(cases: seq<RunCase>, id: string, i: nat, c: RunCase)
    requires i < |cases| && c.id == cases[i].id
    ensures FindIndex(cases[i := c], id) == FindIndex(cases, id)
  {
    if i == 0 {
      assert cases[i := c][1..] == cases[1..];
    } else {
      assert cases[i := c][1..] == cases[1..][i - 1 := c];
      FindIndexStable(cases[1..], id, i - 1, c);
    }
  }

  /** A manifest update keeps the ids of the cases and only ever appends to their events. */
  ghost predicate Extends(m: Manifest, m': Manifest) {
    && m'.runId == m.runId
    && |m'.cases| == |m.cases|
    && (forall i | 0 <= i < |m.cases| :: m'.cases[i].id == m.cases[i].id && m.cases[i].events <= m'.cases[i].events)
    && (forall id: string :: FindIndex(m'.cases, id) == FindIndex(m.cases, id))
  }

  lemma UpdateExtends(r: Redactor, m: Manifest, id: string, p: CasePatch, event: Option<Envelope>, now: Time)
    ensures var res := UpdateCase(r, m, id, p, event, now);
      res.Ok? ==> Extends(m, res.value)
  {
    var res := UpdateCase(r, m, id, p, event, now);
    if res.Ok? && res.value != m {
      var i := FindIndex(m.cases, id).value;
      var c := ApplyPatch(m.cases[i], p, event);
      forall other: string
        ensures FindIndex(m.cases[i := c], other) == FindIndex(m.cases, other)
      {
        FindIndexStable(m.cases, other, i, c);
      }
    }
  }

  lemma ApplyExtends(r: Redactor, m: Manifest, op: Op)
    ensures Extends(m, Apply(r, m, op))
  {
    match op
    case WriteStatus(_, _) =>
    case Update(id, patch, now) => UpdateExtends(r, m, id, patch, None, now);
    case Deliver(id, e, now) =>
      var at := FindIndex(m.cases, id);
      if at.Some? && ValidSession(m.cases[at.value], e) && ValidPayload(e) {
        var stamped := e.(runId := Some(m.runId), caseId := Some(id));
        var updates := StateUpdates(stamped, m.cases[at.value]);
        if updates.Ok? {
          var sessionId := if updates.value.sessionId.Keep? then Set(Some(e.sessionId)) else updates.value.sessionId;
          UpdateExtends(r, m, id, updates.value.(sessionId := sessionId), Some(r.Event(stamped)), now);
        }
      }
  }

  lemma ExtendsKeepsStored(r: Redactor, m: Manifest, m': Manifest, id: (string, string, string))
    requires Extends(m, m') && IsStored(r, m, id)
    ensures IsStored(r, m', id)
  {
    var i := FindIndex(m.cases, id.0).value;
    var k :| 0 <= k < |m.cases[i].events| &&
      IsDigest(m.cases[i].events[k].key) &&
      (m.cases[i].events[k].eventId == id.1 || m.cases[i].events[k].key == id.2);
    assert m'.cases[i].events[k] == m.cases[i].events[k];
  }

  lemma RunKeepsStored(r: Redactor, m: Manifest, log: seq<Op>, id: (string, string, string))
    requires IsStored(r, m, id)
    ensures IsStored(r, Run(r, m, log), id)
    decreases log
  {
    if log != [] {
      ApplyExtends(r, m, log[0]);
      ExtendsKeepsStored(r, m, Apply(r, m, log[0]), id);
      RunKeepsStored(r, Apply(r, m, log[0]), log[1..], id);
    }
  }

  /** A delivery the sender saw succeed has left its event in the manifest. */
  lemma DeliveredIsStored(r: Redactor, m: Manifest, op: Op)
    requires r.Valid() && StoredEventsDistinct(m) && op.Deliver? && IsDelivered(r, m, op)
    ensures IsStored(r, Apply(r, m, op), Identity(r, op))
  {
    ApplyExtends(r, m, op);
    var i := FindIndex(m.cases, op.caseId).value;
    var stored := r.Event(op.e.(runId := Some(m.runId), caseId := Some(op.caseId)));
    var events := m.cases[i].events;
    KeyIsDigest(r, op.e.key);
    var events' := Apply(r, m, op).cases[i].events;
    if r.HasEvent(events, stored) {
      var k :| 0 <= k < |events| && r.SameEvent(events[k], stored);
      assert events'[k] == events[k];
    } else {
      assert events' == events + [stored];
      assert events'[|events|] == stored;
    }
  }

  /** Delivering an event that is already stored changes nothing at all. */
  lemma StoredIsIgnored(r: Redactor, m: Manifest, op: Op)
    requires r.Valid() && op.Deliver? && IsStored(r, m, Identity(r, op))
    ensures Apply(r, m, op) == m
  {
    var i := FindIndex(m.cases, op.caseId).value;
    var events := m.cases[i].events;
    var k :| 0 <= k < |events| && IsDigest(events[k].key) &&
      (events[k].eventId == op.e.eventId || events[k].key == r.Key(op.e.key));
    var incoming := r.Event(op.e.(runId := Some(m.runId), caseId := Some(op.caseId)));
    assert events[k].key in r.Aliases(events[k].key);
    assert incoming.key in r.Aliases(incoming.key);
    assert r.SameEvent(events[k], incoming) by {
      if events[k].eventId != op.e.eventId {
        assert incoming.key in r.Aliases(events[k].key) * r.Aliases(incoming.key);
      }
    }
    assert r.HasEvent(events, incoming);
  }

  lemma ApplyKeepsEventsDistinct(r: Redactor, m: Manifest, op: Op)
    requires r.Valid() && StoredEventsDistinct(m)
    ensures StoredEventsDistinct(Apply(r, m, op))
  {
    match op
    case WriteStatus(_, _) =>
    case Update(id, patch, now) => UpdateKeepsEventsDistinct(r, m, id, patch, None, now);
    case Deliver(id, e, now) =>
      KeyIsDigest(r, e.key);
      var at := FindIndex(m.cases, id);
      if at.Some? && ValidSession(m.cases[at.value], e) && ValidPayload(e) {
        var stamped := e.(runId := Some(m.runId), caseId := Some(id));
        var updates := StateUpdates(stamped, m.cases[at.value]);
        if updates.Ok? {
          var sessionId := if updates.value.sessionId.Keep? then Set(Some(e.sessionId)) else updates.value.sessionId;
          UpdateKeepsEventsDistinct(r, m, id, updates.value.(sessionId := sessionId), Some(r.Event(stamped)), now);
        }
      }
  }

  /** Whatever is delivered, in whatever order, stored events stay pairwise distinct and hashed. */
  lemma {:induction false} RunKeepsEventsDistinct(r: Redactor, m: Manifest, log: seq<Op>)
    requires r.Valid() && StoredEventsDistinct(m)
    ensures StoredEventsDistinct(Run(r, m, log))
    decreases log
  {
    if log != [] {
      ApplyKeepsEventsDistinct(r, m, log[0]);
      RunKeepsEventsDistinct(r, Apply(r, m, log[0]), log[1..]);
    }
  }

  /** Once an event was delivered, redelivering it after any further history is a no-op. */
  lemma RedeliveryIsIgnored(r: Redactor, m: Manifest, first: Op, between: seq<Op>, again: Op)
    requires r.Valid() && StoredEventsDistinct(m)
    requires first.Deliver? && again.Deliver? && Identity(r, first) == Identity(r, again)
    requires IsDelivered(r, m, first)
    ensures var later := Run(r, Apply(r, m, first), between);
      Apply(r, later, again) == later
  {
    DeliveredIsStored(r, m, first);
    RunKeepsStored(r, Apply(r, m, first), between, Identity(r, first));
    StoredIsIgnored(r, Run(r, Apply(r, m, first), between), again);
  }

  /** The log without the deliveries whose event an earlier delivery already got accepted. */
  function FirstDeliveries(r: Redactor, m: Manifest, log: seq<Op>, accepted: set<(string, string, string)>): seq<Op>
    decreases log
  {
    if log == [] then []
    else
      var op := log[0];
      var m' := Apply(r, m, op);
      if !op.Deliver? then [op] + FirstDeliveries(r, m', log[1..], accepted)
      else if Identity(r, op) in accepted then FirstDeliveries(r, m', log[1..], accepted)
      else
        [op] + FirstDeliveries(r, m', log[1..], Accepting(r, m, op, accepted))
  }

  function Accepting(r: Redactor, m: Manifest, op: Op, accepted: set<(string, string, string)>)
    : set<(string, string, string)>
  {
    if op.Deliver? && IsDelivered(r, m, op) then accepted + {Identity(r, op)} else accepted
  }

  /** No event is delivered again after it was accepted. */
  predicate NoRedelivery(r: Redactor, m: Manifest, log: seq<Op>, accepted: set<(string, string, string)>)
    decreases log
  {
    log == [] ||
    (&& (log[0].Deliver? ==> Identity(r, log[0]) !in accepted)
     && NoRedelivery(r, Apply(r, m, log[0]), log[1..], Accepting(r, m, log[0], accepted)))
  }

  lemma {:induction false} FirstDeliveriesSuffice(r: Redactor, m: Manifest, log: seq<Op>, accepted: set<(string, string, string)>)
    requires r.Valid() && StoredEventsDistinct(m)
    requires forall id | id in accepted :: IsStored(r, m, id)
    ensures Run(r, m, FirstDeliveries(r, m, log, accepted)) == Run(r, m, log)
    ensures NoRedelivery(r, m, FirstDeliveries(r, m, log, accepted), accepted)
    decreases log
  {
    if log != [] {
      var op := log[0];
      var m' := Apply(r, m, op);
      ApplyExtends(r, m, op);
      ApplyKeepsEventsDistinct(r, m, op);
      forall id | id in accepted
        ensures IsStored(r, m', id)
      {
        ExtendsKeepsStored(r, m, m', id);
      }
      if op.Deliver? && Identity(r, op) in accepted {
        StoredIsIgnored(r, m, op);
        FirstDeliveriesSuffice(r, m', log[1..], accepted);
      } else {
        var accepted' := Accepting(r, m, op, accepted);
        if op.Deliver? && IsDelivered(r, m, op) {
          DeliveredIsStored(r, m, op);
        }
        FirstDeliveriesSuffice(r, m', log[1..], accepted');
        assert FirstDeliveries(r, m, log, accepted)[1..] == FirstDeliveries(r, m', log[1..], accepted');
      }
    }
  }

  /** At-least-once delivery, whatever else happens in between, ends in the exactly-once manifest. */
  lemma AtLeastOnceIsExactlyOnce(r: Redactor, m: Manifest, log: seq<Op>)
    requires r.Valid() && StoredEventsDistinct(m)
    ensures Run(r, m, FirstDeliveries(r, m, log, {})) == Run(r, m, log)
    ensures NoRedelivery(r, m, FirstDeliveries(r, m, log, {}), {})
  {
    FirstDeliveriesSuffice(r, m, log, {});
  }
}
