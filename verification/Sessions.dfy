/** Session states and the store operations on one of them (buyer/app/state.py). */
module Sessions {
  import opened Common
  import opened Sanitizer

  type Time = int

  datatype Status = Created | Running | WaitingUser | Completed | Failed | Unverified

  predicate IsTerminal(s: Status) {
    s in {Completed, Failed, Unverified}
  }

  datatype Auth = Auth(provider: string, storageState: Option<Json>)

  datatype Event = Event(eventId: string, sessionId: string, eventType: string, occurredAt: Time, key: string,
                         payload: map<string, Json>, evalIds: Option<(string, string)>)

  datatype Memory = Memory(role: string, text: string)

  /** What a session is created with and keeps for good. */
  datatype Task = Task(task: string, startUrl: string, callbackUrl: string, novncUrl: string,
                       metadata: map<string, Json>, createdAt: Time)

  datatype Session = Session(id: string, task: Task, auth: Option<Auth>, status: Status, updatedAt: Time,
                             waitingReplyId: Option<string>, waitingQuestion: Option<string>,
                             lastError: Option<string>, events: seq<Event>, memory: seq<Memory>,
                             pendingReply: Option<string>)

  datatype StoreOp =
    | SetStatus(status: Status, error: Option<string>)
    | SetAuth(auth: Option<Auth>)
    | SetWaitingQuestion(question: string, replyId: string)
    | ApplyReply(replyId: string, message: string, active: bool)
    | PopReply
    | AppendEvent(e: Event)
    | AddMemory(role: string, text: string)

  datatype OpError = NotWaiting | WrongReplyId | NoRunner | NoReply

  /** One store operation on a loaded session; `active` says that the current process runs it. */
  function Change(s: Session, op: StoreOp, now: Time): Result<Session, OpError> {
    match op
    case SetStatus(status, error) =>
      Ok(s.(status := status, lastError := if error.Some? then error else s.lastError, updatedAt := now))
    case SetAuth(auth) => Ok(s.(auth := auth, updatedAt := now))
    case SetWaitingQuestion(question, replyId) =>
      Ok(s.(waitingReplyId := Some(replyId), waitingQuestion := Some(question), pendingReply := None,
            status := WaitingUser, updatedAt := now))
    case ApplyReply(replyId, message, active) =>
      if s.status != WaitingUser then Err(NotWaiting)
      else if s.waitingReplyId != Some(replyId) then Err(WrongReplyId)
      else if !active then Err(NoRunner)
      else
        Ok(s.(pendingReply := Some(message), waitingReplyId := None, waitingQuestion := None, status := Running,
              updatedAt := now))
    case PopReply =>
      if s.pendingReply in {None, Some("")} then Err(NoReply)
      else Ok(s.(pendingReply := None, updatedAt := now))
    case AppendEvent(e) => Ok(s.(events := s.events + [e], updatedAt := now))
    case AddMemory(role, text) => Ok(s.(memory := s.memory + [Memory(role, text)], updatedAt := now))
  }

  // ----- the sanitised form that the database keeps

  /** What is done to event payloads and to reply or memory texts before they are written. */
  datatype Sanitizers = Sanitizers(payload: map<string, Json> -> map<string, Json>, text: string -> string) {
    ghost predicate Valid() {
      && (forall p :: payload(payload(p)) == payload(p))
      && (forall t :: text(text(t)) == text(t))
      && (forall t :: text(t) == "" <==> t == "")
    }

    function Event(e: Event): Event {
      e.(payload := payload(e.payload), evalIds := None)
    }

    function Events(events: seq<Event>): (r: seq<Event>)
      ensures |r| == |events|
      ensures forall i | 0 <= i < |events| :: r[i] == Event(events[i])
    {
      if events == [] then [] else [Event(events[0])] + Events(events[1..])
    }

    function Memory(m: Memory): Memory {
      m.(text := text(m.text))
    }

    function Memories(memory: seq<Memory>): (r: seq<Memory>)
      ensures |r| == |memory|
      ensures forall i | 0 <= i < |memory| :: r[i] == Memory(memory[i])
    {
      if memory == [] then [] else [Memory(memory[0])] + Memories(memory[1..])
    }

    function Reply(reply: Option<string>): Option<string> {
      match reply
      case None => None
      case Some(t) => Some(text(t))
    }

    function Session(s: Session): Session {
      s.(auth := None, events := Events(s.events), memory := Memories(s.memory), pendingReply := Reply(s.pendingReply))
    }
  }

  /** The sanitisers that buyer/app/persistence.py applies. */
  function Persistent(codec: Codec): Sanitizers {
    Sanitizers(StoredPayload, t => SanitizeText(t, codec))
  }

  lemma PersistentIsValid(codec: Codec)
    requires codec.Valid()
    ensures Persistent(codec).Valid()
  {
    var z := Persistent(codec);
    forall p
      ensures z.payload(z.payload(p)) == z.payload(p)
    {
      StoredPayloadIdempotent(p);
    }
    forall t
      ensures z.text(z.text(t)) == z.text(t)
      ensures z.text(t) == "" <==> t == ""
    {
      SanitizeTextIdempotent(t, codec);
    }
  }

  lemma StoredIdempotent(s: Session, z: Sanitizers)
    requires z.Valid()
    ensures z.Session(z.Session(s)) == z.Session(s)
  {
    assert z.Events(z.Events(s.events)) == z.Events(s.events);
    assert z.Memories(z.Memories(s.memory)) == z.Memories(s.memory);
  }

  lemma EventsAppend(events: seq<Event>, e: Event, z: Sanitizers)
    ensures z.Events(events + [e]) == z.Events(events) + [z.Event(e)]
  {
  }

  lemma MemoriesAppend(memory: seq<Memory>, m: Memory, z: Sanitizers)
    ensures z.Memories(memory + [m]) == z.Memories(memory) + [z.Memory(m)]
  {
  }

  /** Both results are refused for the same reason, or stored the same way. */
  predicate SameOutcome(a: Result<Session, OpError>, b: Result<Session, OpError>, z: Sanitizers) {
    match (a, b)
    case (Ok(s), Ok(t)) => z.Session(s) == z.Session(t)
    case (Err(e), Err(f)) => e == f
    case _ => false
  }

  /**
   * Working on the stored form is as good as working on the original: the same operations are
   * refused, and what the others leave is stored the same way.
   */
  lemma ChangeCommutesWithStored(s: Session, op: StoreOp, now: Time, z: Sanitizers)
    requires z.Valid()
    ensures SameOutcome(Change(z.Session(s), op, now), Change(s, op, now), z)
  {
    StoredIdempotent(s, z);
    match op
    case AppendEvent(e) =>
      EventsAppend(z.Events(s.events), e, z);
      EventsAppend(s.events, e, z);
    case AddMemory(role, text) =>
      MemoriesAppend(z.Memories(s.memory), Memory.Memory(role, text), z);
      MemoriesAppend(s.memory, Memory.Memory(role, text), z);
    case _ =>
  }
}
