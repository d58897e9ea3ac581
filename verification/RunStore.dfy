/** The run manifest and the store that rewrites it (eval_service/app/run_store.py). */
module RunManifest {
  import opened Common

  type Time = int

  datatype RunStatus = RunPending | RunRunning | RunFinished | RunFailed | RunCanceled

  datatype CaseState =
    | Pending | SkippedAuthMissing | Starting | Running | WaitingUser | PaymentReady
    | Unverified | Finished | Failed | Timeout | JudgePending | Judged | JudgeFailed

  predicate IsTerminal(s: CaseState) {
    s in {SkippedAuthMissing, Unverified, Finished, Failed, Timeout, Judged, JudgeFailed}
  }

  datatype EventType =
    | AskUser | PaymentReadyEvent | PaymentUnverified | ScenarioFinished | SessionStarted
    | AgentStepStarted | AgentStepFinished | AgentStreamEvent | HandoffRequested | HandoffResumed

  /** A payload value is text or some other JSON value the callback code never looks into. */
  datatype PayloadValue = Text(text: string) | Other(tag: int)

  type Payload = map<string, PayloadValue>

  datatype Envelope = Envelope(eventId: string, sessionId: string, eventType: EventType, occurredAt: Time,
                               key: string, payload: Payload,
                               runId: Option<string>, caseId: Option<string>)

  datatype RunCase = RunCase(id: string, version: string, state: CaseState, sessionId: Option<string>,
                             startedAt: Option<Time>, finishedAt: Option<Time>, waitingReplyId: Option<string>,
                             error: Option<string>, events: seq<Envelope>, artifactPaths: map<string, string>)

  datatype Manifest = Manifest(runId: string, status: RunStatus, createdAt: Time, updatedAt: Time,
                               cases: seq<RunCase>, summaryPath: Option<string>)

  /** A field of an update: left alone, or overwritten. */
  datatype Field<+T> = Keep | Set(value: T) {
    function Over(old_: T): T {
      match this
      case Keep => old_
      case Set(v) => v
    }
  }

  datatype CasePatch = CasePatch(state: Field<CaseState>, sessionId: Field<Option<string>>,
                                 startedAt: Field<Option<Time>>, finishedAt: Field<Option<Time>>,
                                 waitingReplyId: Field<Option<string>>, error: Field<Option<string>>,
                                 artifactPaths: map<string, string>)

  const NO_CHANGE := CasePatch(Keep, Keep, Keep, Keep, Keep, Keep, map[])

  datatype StoreError = NoSuchRun | NoSuchCase | InvalidId | RunExists

  // ----- identifiers

  predicate IsPathChar(c: char) {
    'A' <= c <= 'Z' || 'a' <= c <= 'z' || '0' <= c <= '9' || c in {'_', '.', '-'}
  }

  predicate IsPathSegment(s: string) {
    && s != "" && s != "."
    && (forall i | 0 <= i < |s| :: IsPathChar(s[i]))
    && (forall i | 0 <= i < |s| - 1 :: !(s[i] == '.' && s[i + 1] == '.'))
  }

  // ----- idempotency keys

  const DIGEST_PREFIX := "sha256:"

  predicate IsHexDigit(c: char) {
    '0' <= c <= '9' || 'a' <= c <= 'f' || 'A' <= c <= 'F'
  }

  predicate IsHex64(s: string) {
    |s| == 64 && forall i | 0 <= i < |s| :: IsHexDigit(s[i])
  }

  predicate IsDigest(key: string) {
    |key| >= 7 && key[..7] == DIGEST_PREFIX && IsHex64(key[7..])
  }

  /** What the stored events lose: keys are hashed and payloads are redacted. */
  datatype Redactor = Redactor(sha256: string -> string, payload: Payload -> Payload) {
    ghost predicate Valid() {
      forall s :: IsHex64(sha256(s))
    }

    function Key(key: string): string {
      if IsDigest(key) then key else DIGEST_PREFIX + sha256(key)
    }

    function Aliases(key: string): set<string> {
      {key, Key(key)}
    }

    function Event(e: Envelope): Envelope {
      e.(key := Key(e.key), payload := payload(e.payload))
    }

    predicate SameEvent(existing: Envelope, incoming: Envelope) {
      existing.eventId == incoming.eventId || Aliases(existing.key) * Aliases(incoming.key) != {}
    }

    predicate HasEvent(events: seq<Envelope>, incoming: Envelope) {
      exists i | 0 <= i < |events| :: SameEvent(events[i], incoming)
    }
  }

  /** Hashing a key that is already hashed does nothing. */
  lemma KeyIsDigest(r: Redactor, key: string)
    requires r.Valid()
    ensures IsDigest(r.Key(key))
    ensures r.Key(r.Key(key)) == r.Key(key)
  {
    if !IsDigest(key) {
      assert (DIGEST_PREFIX + r.sha256(key))[7..] == r.sha256(key);
    }
  }

  function MissingRun(runId: string): StoreError {
    if IsPathSegment(runId) then NoSuchRun else InvalidId
  }

  // ----- updating one case

  predicate FirstAt(cases: seq<RunCase>, id: string, i: nat) {
    i < |cases| && cases[i].id == id && forall j | 0 <= j < i :: cases[j].id != id
  }

  function FindIndex(cases: seq<RunCase>, id: string): (r: Option<nat>)
    ensures r.Some? ==> FirstAt(cases, id, r.value)
    ensures r.None? ==> forall j | 0 <= j < |cases| :: cases[j].id != id
  {
    if cases == [] then None
    else if cases[0].id == id then Some(0)
    else
      match FindIndex(cases[1..], id)
      case None => None
      case Some(i) => Some(i + 1)
  }

  function ApplyPatch(c: RunCase, p: CasePatch, event: Option<Envelope>): RunCase {
    RunCase(c.id, c.version, p.state.Over(c.state), p.sessionId.Over(c.sessionId),
            p.startedAt.Over(c.startedAt), p.finishedAt.Over(c.finishedAt),
            p.waitingReplyId.Over(c.waitingReplyId), p.error.Over(c.error),
            if event.Some? then c.events + [event.value] else c.events,
            c.artifactPaths + p.artifactPaths)
  }

  /** One call of `_update_case` on a manifest: the event, if any, is already redacted. */
  function UpdateCase(r: Redactor, m: Manifest, id: string, p: CasePatch, event: Option<Envelope>, now: Time)
    : Result<Manifest, StoreError>
  {
    if !IsPathSegment(id) then Err(InvalidId)
    else
      match FindIndex(m.cases, id)
      case None => Err(NoSuchCase)
      case Some(i) =>
        if event.Some? && r.HasEvent(m.cases[i].events, event.value) then Ok(m)
        else Ok(m.(updatedAt := now, cases := m.cases[i := ApplyPatch(m.cases[i], p, event)]))
  }

  /** `append_callback_event`: the event's session id is recorded unless the caller chose another. */
  function AppendEvent(r: Redactor, m: Manifest, id: string, e: Envelope, p: CasePatch, now: Time)
    : Result<Manifest, StoreError>
  {
    var sessionId := if p.sessionId.Keep? then Set(Some(e.sessionId)) else p.sessionId;
    UpdateCase(r, m, id, p.(sessionId := sessionId), Some(r.Event(e)), now)
  }

  // ----- invariants of manifests

  predicate DistinctIds(cases: seq<RunCase>) {
    forall i, j | 0 <= i < j < |cases| :: cases[i].id != cases[j].id
  }

  predicate ValidIds(cases: seq<RunCase>) {
    forall i | 0 <= i < |cases| :: IsPathSegment(cases[i].id)
  }

  /** Stored events have pairwise distinct event ids and pairwise distinct, hashed keys. */
  predicate EventsDistinct(events: seq<Envelope>) {
    && (forall i | 0 <= i < |events| :: IsDigest(events[i].key))
    && (forall i, j | 0 <= i < j < |events| ::
          events[i].eventId != events[j].eventId && events[i].key != events[j].key)
  }

  predicate StoredEventsDistinct(m: Manifest) {
    forall i | 0 <= i < |m.cases| :: EventsDistinct(m.cases[i].events)
  }

  lemma FindIndexOfId(cases: seq<RunCase>, i: nat)
    requires DistinctIds(cases) && i < |cases|
    ensures FindIndex(cases, cases[i].id) == Some(i)
  {
  }

  /** Every update keeps the stored events of every case distinct and hashed. */
  lemma UpdateKeepsEventsDistinct(r: Redactor, m: Manifest, id: string, p: CasePatch, event: Option<Envelope>, now: Time)
    requires r.Valid() && StoredEventsDistinct(m)
    requires event.Some? ==> IsDigest(event.value.key)
    ensures var res := UpdateCase(r, m, id, p, event, now);
      res.Ok? ==> StoredEventsDistinct(res.value)
  {
    match UpdateCase(r, m, id, p, event, now)
    case Err(_) =>
    case Ok(m') =>
      var i := FindIndex(m.cases, id).value;
      if m' != m && event.Some? {
        var old_ := m.cases[i].events;
        assert m'.cases[i].events == old_ + [event.value];
        forall k | 0 <= k < |old_|
          ensures old_[k].eventId != event.value.eventId && old_[k].key != event.value.key
        {
          assert !r.SameEvent(old_[k], event.value);
          assert old_[k].key !in r.Aliases(old_[k].key) * r.Aliases(event.value.key);
        }
      }
  }

  /**
   * The manifests of all runs, rewritten one at a time. The loops search the way `RunStore` in
   * eval_service/app/run_store.py does; the contracts give the whole new content of the store.
   */
  class RunStore {
    const redactor: Redactor
    var manifests: map<string, Manifest>

    constructor (redactor: Redactor)
      ensures this.redactor == redactor && manifests == map[]
    {
      this.redactor := redactor;
      manifests := map[];
    }

    method CreateRun(runId: string, cases: seq<RunCase>, status: RunStatus, now: Time)
      returns (res: Result<Manifest, StoreError>)
      modifies this
      ensures res == if !IsPathSegment(runId) then Err(InvalidId)
                     else if runId in old(manifests) then Err(RunExists)
                     else Ok(Manifest(runId, status, now, now, cases, None))
      ensures manifests == if res.Ok? then old(manifests)[runId := res.value] else old(manifests)
    {
      if !IsPathSegment(runId) {
        return Err(InvalidId);
      }
      if runId in manifests {
        return Err(RunExists);
      }
      var manifest := Manifest(runId, status, now, now, cases, None);
      manifests := manifests[runId := manifest];
      return Ok(manifest);
    }

    method ReadManifest(runId: string) returns (res: Result<Manifest, StoreError>)
      ensures res == if runId in manifests then Ok(manifests[runId]) else Err(MissingRun(runId))
    {
      if runId in manifests {
        return Ok(manifests[runId]);
      }
      return Err(MissingRun(runId));
    }

    method UpdateRunStatus(runId: string, status: RunStatus, now: Time) returns (res: Result<Manifest, StoreError>)
      modifies this
      ensures res == if runId in old(manifests) then Ok(old(manifests)[runId].(status := status, updatedAt := now))
                     else Err(MissingRun(runId))
      ensures manifests == if res.Ok? then old(manifests)[runId := res.value] else old(manifests)
    {
      res := ReadManifest(runId);
      if res.Ok? {
        var updated := res.value.(status := status, updatedAt := now);
        manifests := manifests[runId := updated];
        res := Ok(updated);
      }
    }

    static method FindCaseIndex(cases: seq<RunCase>, id: string) returns (index: Option<nat>)
      ensures index == FindIndex(cases, id)
    {
      var i := 0;
      while i < |cases|
        invariant 0 <= i <= |cases|
        invariant forall j | 0 <= j < i :: cases[j].id != id
      {
        if cases[i].id == id {
          return Some(i);
        }
        i := i + 1;
      }
      return None;
    }

    method HasCallbackEvent(events: seq<Envelope>, incoming: Envelope) returns (found: bool)
      ensures found <==> redactor.HasEvent(events, incoming)
    {
      var incomingKeys := redactor.Aliases(incoming.key);
      for i := 0 to |events|
        invariant !redactor.HasEvent(events[..i], incoming)
      {
        if events[i].eventId == incoming.eventId {
          return true;
        }
        if redactor.Aliases(events[i].key) * incomingKeys != {} {
          return true;
        }
        assert events[..i + 1] == events[..i] + [events[i]];
      }
      assert events[..|events|] == events;
      return false;
    }

    method UpdateCaseWith(runId: string, id: string, patch: CasePatch, event: Option<Envelope>, now: Time)
      returns (res: Result<Manifest, StoreError>)
      modifies this
      ensures res == if !IsPathSegment(id) then Err(InvalidId)
                     else if runId !in old(manifests) then Err(MissingRun(runId))
                     else UpdateCase(redactor, old(manifests)[runId], id, patch, event, now)
      ensures manifests == if res.Ok? then old(manifests)[runId := res.value] else old(manifests)
    {
      if !IsPathSegment(id) {
        return Err(InvalidId);
      }
      res := ReadManifest(runId);
      if res.Err? {
        return;
      }
      var manifest := res.value;
      var cases := manifest.cases;
      var index := FindCaseIndex(cases, id);
      if index.None? {
        return Err(NoSuchCase);
      }
      var i := index.value;
      if event.Some? {
        var known := HasCallbackEvent(cases[i].events, event.value);
        if known {
          return;
        }
      }
      var data := cases[i];
      if patch.state.Set? { data := data.(state := patch.state.value); }
      if patch.sessionId.Set? { data := data.(sessionId := patch.sessionId.value); }
      if patch.startedAt.Set? { data := data.(startedAt := patch.startedAt.value); }
      if patch.finishedAt.Set? { data := data.(finishedAt := patch.finishedAt.value); }
      if patch.waitingReplyId.Set? { data := data.(waitingReplyId := patch.waitingReplyId.value); }
      if patch.error.Set? { data := data.(error := patch.error.value); }
      data := data.(artifactPaths := data.artifactPaths + patch.artifactPaths);
      if event.Some? { data := data.(events := data.events + [event.value]); }
      assert data == ApplyPatch(cases[i], patch, event);
      var updated := manifest.(updatedAt := now, cases := cases[i := data]);
      manifests := manifests[runId := updated];
      res := Ok(updated);
    }

    method AppendCallbackEvent(runId: string, id: string, event: Envelope, patch: CasePatch, now: Time)
      returns (res: Result<Manifest, StoreError>)
      modifies this
      ensures res == if !IsPathSegment(id) then Err(InvalidId)
                     else if runId !in old(manifests) then Err(MissingRun(runId))
                     else AppendEvent(redactor, old(manifests)[runId], id, event, patch, now)
      ensures manifests == if res.Ok? then old(manifests)[runId := res.value] else old(manifests)
    {
      var p := patch;
      if p.sessionId.Keep? {
        p := p.(sessionId := Set(Some(event.sessionId)));
      }
      res := UpdateCaseWith(runId, id, p, Some(redactor.Event(event)), now);
    }
  }
}
