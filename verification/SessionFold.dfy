/** The session list of the operator's screen, a fold over events (`list_sessions` in micro-ui/app/store.py). */
module SessionFold {
  import opened Common
  import opened EventQueues
  import Sanitizer

  type Json = Sanitizer.Json

  function Get(e: Envelope, key: string): Json {
    if key in e.payload then e.payload[key] else Sanitizer.JNull
  }

  /** A payload field that counts only as a text that is not empty. */
  function GetText(e: Envelope, key: string): Option<string> {
    match Get(e, key)
    case JStr(s) => if s != "" then Some(s) else None
    case _ => None
  }

  function Texts(items: seq<Json>): seq<string> {
    if items == [] then []
    else
      var last := items[|items| - 1];
      Texts(items[..|items| - 1]) + if last.JStr? then [last.s] else []
  }

  predicate Asks(e: Envelope) {
    e.eventType == "ask_user"
  }

  predicate Clears(e: Envelope) {
    e.eventType in {"agent_step_started", "handoff_resumed", "payment_ready", "operator_reply", "payment_unverified",
                    "scenario_finished"}
  }

  /** The question an event leaves open. */
  datatype Ask = NoAsk | Ask(replyId: Json, question: Option<string>, options: seq<string>, askedAt: int)

  function Question(e: Envelope): Option<string> {
    if GetText(e, "message").Some? then GetText(e, "message")
    else match Get(e, "question") case JStr(s) => Some(s) case _ => None
  }

  function AskOf(e: Envelope): Ask {
    Ask(Get(e, "reply_id"), Question(e),
        match Get(e, "options") case JList(items) => Texts(items) case _ => [], e.occurredAt)
  }

  /** The last of the events for which `p` holds. */
  function Last(events: seq<Envelope>, p: Envelope -> bool): Option<Envelope> {
    if events == [] then None
    else if p(events[|events| - 1]) then Some(events[|events| - 1])
    else Last(events[..|events| - 1], p)
  }

  // ----- what the summary should say

  /** The question still open: that of the last asking or clearing event, if it asks. */
  function OpenAsk(events: seq<Envelope>): Ask {
    match Last(events, e => Asks(e) || Clears(e))
    case Some(e) => if Asks(e) then AskOf(e) else NoAsk
    case None => NoAsk
  }

  predicate IsPayment(e: Envelope) {
    e.eventType == "payment_ready" || e.eventType == "payment_unverified"
  }

  predicate FinishesWith(e: Envelope, status: string) {
    e.eventType == "scenario_finished" && Get(e, "status") == Sanitizer.JStr(status)
  }

  predicate SetsStatus(e: Envelope) {
    e.eventType == "payment_unverified" || e.eventType == "scenario_finished"
  }

  /** An event that sets the status whatever it was before. */
  predicate Overrides(e: Envelope) {
    SetsStatus(e) && !FinishesWith(e, "completed")
  }

  function StatusOf(e: Envelope): Json {
    if e.eventType == "payment_unverified" then Sanitizer.JStr("unverified") else Get(e, "status")
  }

  /**
   * The last event that sets the status decides it, except that `completed` does not displace
   * `unverified`: an unverified payment shows until another outcome is reported.
   */
  function FinalStatus(events: seq<Envelope>): Json {
    match Last(events, SetsStatus)
    case None => Sanitizer.JNull
    case Some(last) =>
      if Overrides(last) then StatusOf(last)
      else
        match Last(events, Overrides)
        case Some(e) => if StatusOf(e) == Sanitizer.JStr("unverified") then StatusOf(e) else StatusOf(last)
        case None => StatusOf(last)
  }

  datatype Summary = Summary(sessionId: string, lastEventType: string, lastMessage: Option<string>, ask: Ask,
                             orderId: Option<string>, orderIdHost: Option<string>, paymentProvider: Option<string>,
                             status: Json, novncUrl: Json, updatedAt: int)

  function Message(e: Envelope): Option<string> {
    if Get(e, "message").JStr? then Some(Get(e, "message").s)
    else if Get(e, "question").JStr? then Some(Get(e, "question").s)
    else if Get(e, "summary").JStr? then Some(Get(e, "summary").s)
    else None
  }

  predicate IsWaiting(ask: Ask) {
    ask.Ask? && ask.replyId != Sanitizer.JNull
  }

  /** A text of the last payment event, proven or not. */
  function PaymentText(events: seq<Envelope>, key: string): Option<string> {
    match Last(events, IsPayment)
    case Some(e) => GetText(e, key)
    case None => None
  }

  function Provider(events: seq<Envelope>): Option<string> {
    match Last(events, IsUnverified)
    case Some(e) => GetText(e, "provider")
    case None => None
  }

  function NovncUrl(events: seq<Envelope>): Json {
    match Last(events, IsSessionStart)
    case Some(e) => Get(e, "novnc_url")
    case None => Sanitizer.JNull
  }

  /** Every field of a summary, each read off the one event that decides it. */
  ghost predicate Summarizes(s: Summary, sessionId: string, events: seq<Envelope>)
    requires events != []
  {
    var last := events[|events| - 1];
    && s.sessionId == sessionId && s.lastEventType == last.eventType && s.updatedAt == last.occurredAt
    && s.lastMessage == Message(last)
    && s.ask == OpenAsk(events)
    && s.orderId == PaymentText(events, "order_id") && s.orderIdHost == PaymentText(events, "order_id_host")
    && s.paymentProvider == Provider(events) && s.novncUrl == NovncUrl(events)
    && s.status == if FinalStatus(events) != Sanitizer.JNull then FinalStatus(events)
                   else Sanitizer.JStr(if IsWaiting(OpenAsk(events)) then "waiting_user" else "running")
  }

  predicate IsUnverified(e: Envelope) {
    e.eventType == "payment_unverified"
  }

  predicate IsSessionStart(e: Envelope) {
    e.eventType == "session_started"
  }

  /** The loop of `list_sessions` over the events of one session. */
  method Summarize(sessionId: string, events: seq<Envelope>) returns (summary: Summary)
    requires events != []
    ensures Summarizes(summary, sessionId, events)
  {
    var ask, orderId, orderIdHost, provider := NoAsk, None, None, None;
    var status, novncUrl: Json := Sanitizer.JNull, Sanitizer.JNull;
    for i := 0 to |events|
      invariant ask == OpenAsk(events[..i]) && status == FinalStatus(events[..i])
      invariant orderId == PaymentText(events[..i], "order_id") && orderIdHost == PaymentText(events[..i], "order_id_host")
      invariant provider == Provider(events[..i]) && novncUrl == NovncUrl(events[..i])
    {
      var event := events[i];
      StatusNext(events[..i], event);
      FieldsNext(events[..i], event);
      assert events[..i + 1] == events[..i] + [event];
      if event.eventType == "ask_user" {
        ask := AskOf(event);
      }
      if event.eventType in {"agent_step_started", "handoff_resumed", "payment_ready", "operator_reply"} {
        ask := NoAsk;
      }
      if event.eventType == "payment_ready" {
        orderId, orderIdHost := GetText(event, "order_id"), GetText(event, "order_id_host");
      }
      if event.eventType == "payment_unverified" {
        orderId, orderIdHost := GetText(event, "order_id"), GetText(event, "order_id_host");
        provider, status, ask := GetText(event, "provider"), Sanitizer.JStr("unverified"), NoAsk;
      }
      if event.eventType == "scenario_finished" {
        if !(status == Sanitizer.JStr("unverified") && Get(event, "status") == Sanitizer.JStr("completed")) {
          status := Get(event, "status");
        }
        ask := NoAsk;
      }
      if event.eventType == "session_started" {
        novncUrl := Get(event, "novnc_url");
      }
    }
    assert events[..|events|] == events;
    if status == Sanitizer.JNull {
      status := Sanitizer.JStr(if IsWaiting(ask) then "waiting_user" else "running");
    }
    var last := events[|events| - 1];
    summary := Summary(sessionId, last.eventType, Message(last), ask, orderId, orderIdHost, provider, status, novncUrl,
                       last.occurredAt);
  }

  lemma LastAppend(events: seq<Envelope>, e: Envelope, p: Envelope -> bool)
    ensures Last(events + [e], p) == if p(e) then Some(e) else Last(events, p)
  {
    assert (events + [e])[..|events|] == events;
  }

  /** How one more event changes the fields that are not the status. */
  lemma FieldsNext(events: seq<Envelope>, e: Envelope)
    ensures OpenAsk(events + [e]) == if Asks(e) then AskOf(e) else if Clears(e) then NoAsk else OpenAsk(events)
    ensures forall key :: PaymentText(events + [e], key) == if IsPayment(e) then GetText(e, key) else PaymentText(events, key)
    ensures Provider(events + [e]) == if IsUnverified(e) then GetText(e, "provider") else Provider(events)
    ensures NovncUrl(events + [e]) == if IsSessionStart(e) then Get(e, "novnc_url") else NovncUrl(events)
  {
    LastAppend(events, e, e => Asks(e) || Clears(e));
    LastAppend(events, e, IsPayment);
    LastAppend(events, e, IsUnverified);
    LastAppend(events, e, IsSessionStart);
  }

  /** How one more event changes the status. */
  lemma StatusNext(events: seq<Envelope>, e: Envelope)
    ensures FinalStatus(events + [e])
         == if e.eventType == "payment_unverified" then Sanitizer.JStr("unverified")
            else if e.eventType == "scenario_finished"
                    && !(FinalStatus(events) == Sanitizer.JStr("unverified") && FinishesWith(e, "completed"))
                 then Get(e, "status")
            else FinalStatus(events)
  {
    LastAppend(events, e, SetsStatus);
    LastAppend(events, e, Overrides);
    LastOverrides(events);
  }

  /** If the last event that sets the status overrides it, it is also the last one that overrides. */
  lemma {:induction false} LastOverrides(events: seq<Envelope>)
    ensures Last(events, SetsStatus).Some? && Overrides(Last(events, SetsStatus).value)
      ==> Last(events, Overrides) == Last(events, SetsStatus)
    ensures Last(events, Overrides).Some? ==> Last(events, SetsStatus).Some?
    ensures Last(events, SetsStatus).Some? ==> SetsStatus(Last(events, SetsStatus).value)
    ensures Last(events, Overrides).Some? ==> Overrides(Last(events, Overrides).value)
  {
    if events != [] {
      LastOverrides(events[..|events| - 1]);
    }
  }

  /** A session waits for a reply if and only if its last asking or clearing event asks with a reply id. */
  lemma {:induction false} WaitingMeans(events: seq<Envelope>)
    ensures IsWaiting(OpenAsk(events)) <==>
      exists i | 0 <= i < |events| :: Asks(events[i]) && Get(events[i], "reply_id") != Sanitizer.JNull
                                      && forall j | i < j < |events| :: !Asks(events[j]) && !Clears(events[j])
  {
    if events != [] {
      var front, last := events[..|events| - 1], events[|events| - 1];
      LastAppend(front, last, e => Asks(e) || Clears(e));
      assert events == front + [last];
      WaitingMeans(front);
    }
  }
}
