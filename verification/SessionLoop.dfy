/**
 * The session loop of buyer/app/service.py: agent steps, questions, recovery from browser failures,
 * and the handlers that end a session. What the runner, the user, the network and the clock do is
 * an environment; the loop runs for any number of steps of it.
 */
module SessionLoop {
  import opened Common
  import opened PaymentVerifier

  datatype Status = Running | WaitingUser | Completed | Failed | UnverifiedStatus

  datatype Event =
    | SessionStarted
    | StepStarted(step: nat)
    | StepFinished(step: nat, result: string)
    | AskUser(step: nat)
    | PaymentReady(orderId: string, orderIdHost: string)
    | PaymentUnverified(reported: Option<string>, provider: string, host: string)
    | ScenarioFinished(status: Status)

  /** What one agent step comes back with; `Raised` stands for any exception before its result is used. */
  datatype StepResult = Raised | Returned(out: AgentOutput)

  /**
   * `delivers(k)`: the k-th delivery attempt succeeds. `step(n)`, `reply(n)`, `time(n)`: the result of
   * step n, the answer to its question if it ever comes, and the clock when its failure is looked at.
   */
  datatype Env = Env(domain: string, setupRaises: bool, delivers: nat -> bool, step: nat -> StepResult,
                     reply: nat -> Option<string>, time: nat -> real, window: real, interval: real) {
    /** A retry sleeps for at least the interval before the next step. */
    ghost predicate Valid() {
      && window >= 0.0 && interval > 0.0
      && forall n: nat :: IsTransient(step(n)) ==> time(n + 1) >= time(n) + interval
    }

    /** The retries that a window admits. */
    function MaxRetries(): int
      requires interval > 0.0
    {
      (window / interval).Floor + 1
    }
  }

  predicate IsQuestion(r: StepResult) {
    r.Returned? && r.out.status == "needs_user_input"
  }

  predicate IsCompletion(r: StepResult) {
    r.Returned? && r.out.status == "completed"
  }

  /** A result that is neither a question nor a completion and looks like a passing browser failure. */
  predicate IsTransient(r: StepResult) {
    r.Returned? && !IsQuestion(r) && !IsCompletion(r) && r.out.transientFailure
  }

  // ----- which steps go on to another one

  /** Where the unbroken stretch of passing failures that step n would continue began. */
  function StretchStart(env: Env, n: nat): (first: nat)
    ensures first <= n
  {
    if n > 0 && IsTransient(env.step(n - 1)) then StretchStart(env, n - 1) else n
  }

  function Elapsed(env: Env, n: nat): real {
    env.time(n) - env.time(StretchStart(env, n))
  }

  /** A passing failure inside the recovery window. */
  predicate Retries(env: Env, n: nat) {
    IsTransient(env.step(n)) && Elapsed(env, n) <= env.window
  }

  predicate Answered(env: Env, n: nat) {
    IsQuestion(env.step(n)) && env.reply(n).Some? && env.reply(n).value != ""
  }

  predicate GoesOn(env: Env, n: nat) {
    Retries(env, n) || Answered(env, n)
  }

  /** The step ends the session: it raised, completed, or failed for good. */
  predicate Ends(env: Env, n: nat) {
    !IsQuestion(env.step(n)) && !Retries(env, n)
  }

  // ----- what a session reports

  function FailedEvents(): seq<Event> {
    [ScenarioFinished(Failed)]
  }

  /** What a completed step reports before the final event, and the status it ends with. */
  function PaymentEvents(out: AgentOutput, v: Verification): seq<Event> {
    match v
    case Accepted(e) =>
      if out.orderId.Some? && out.orderId.value != "" then [PaymentReady(out.orderId.value, e.host)] else []
    case Unverified(e) => [PaymentUnverified(out.orderId, e.provider, e.host)]
    case Rejected => []
  }

  function FinalStatus(v: Verification): Status {
    match v
    case Accepted(_) => Completed
    case Unverified(_) => UnverifiedStatus
    case Rejected => Failed
  }

  function CompletedEvents(out: AgentOutput, v: Verification): seq<Event> {
    PaymentEvents(out, v) + [ScenarioFinished(FinalStatus(v))]
  }

  /** The events of step n, up to its question if it asks one. */
  function StepEvents(env: Env, n: nat): seq<Event> {
    match env.step(n)
    case Raised => [StepStarted(n + 1)]
    case Returned(out) =>
      [StepStarted(n + 1), StepFinished(n + 1, out.status)] + if IsQuestion(env.step(n)) then [AskUser(n)] else []
  }

  /** The events of the first steps. */
  function Log(env: Env, steps: nat): seq<Event> {
    if steps == 0 then [SessionStarted] else Log(env, steps - 1) + StepEvents(env, steps - 1)
  }

  /** What the last of these steps, or a failed setup, ends the session with. */
  function Ending(env: Env, steps: nat): seq<Event> {
    if steps == 0 then if env.setupRaises then FailedEvents() else []
    else if !Ends(env, steps - 1) then []
    else if IsCompletion(env.step(steps - 1)) then
      var out := env.step(steps - 1).out; CompletedEvents(out, VerifyCompletedPayment(env.domain, out))
    else FailedEvents()
  }

  function EndStatus(env: Env, steps: nat): Status {
    if steps > 0 && IsCompletion(env.step(steps - 1))
    then FinalStatus(VerifyCompletedPayment(env.domain, env.step(steps - 1).out))
    else Failed
  }

  function WholeLog(env: Env, steps: nat): seq<Event> {
    Log(env, steps) + Ending(env, steps)
  }

  predicate AllTrue(s: seq<bool>) {
    forall i | 0 <= i < |s| :: s[i]
  }

  /** The attempts went as the environment says, and stopped at the first one that failed. */
  predicate Follows(env: Env, attempts: seq<bool>) {
    && (forall k | 0 <= k < |attempts| :: attempts[k] == env.delivers(k))
    && (forall k | 0 <= k < |attempts| - 1 :: attempts[k])
  }

  /** Every event so far was tried once, and all before the last were delivered. */
  predicate Tried(env: Env, events: seq<Event>, attempts: seq<bool>) {
    |attempts| == |events| && Follows(env, attempts)
  }

  /** More events went out, in order, up to the first failed delivery. */
  predicate SentUpTo(before: seq<Event>, planned: seq<Event>, events: seq<Event>, ok: bool) {
    && before <= events <= before + planned && |before| < |events|
    && (ok ==> events == before + planned)
  }

  /** How many events come before the first one of the last of these steps. */
  function Begun(env: Env, steps: nat): nat {
    if steps == 0 then 0 else |Log(env, steps - 1)|
  }

  datatype Outcome =
    | Ended      // a handler or the fallback ended the session
    | Suspended  // still running, or waiting for an answer, when the run is looked at
    | Abandoned  // an empty answer made the loop return without ending the session

  /** How the body of the loop left off. */
  datatype Signal = Again | Handled | DeliveryFailed | OtherError | Paused | EmptyAnswer

  /** All steps before the last went on, and the setup did not raise if there was a step. */
  predicate Reaches(env: Env, steps: nat) {
    (steps > 0 ==> !env.setupRaises) && forall n | 0 <= n < steps - 1 :: GoesOn(env, n)
  }

  /** Why a run that was neither ended nor cut off by a failed delivery stopped after these steps. */
  predicate StopsFor(env: Env, maxSteps: nat, steps: nat, outcome: Outcome, status: Status) {
    match outcome
    case Ended => Ending(env, steps) != [] && status == EndStatus(env, steps)
    case Suspended =>
      || (steps == maxSteps && status == Running && Ending(env, steps) == [] && (steps > 0 ==> GoesOn(env, steps - 1)))
      || (steps > 0 && status == WaitingUser && IsQuestion(env.step(steps - 1)) && env.reply(steps - 1).None?)
    case Abandoned => steps > 0 && IsQuestion(env.step(steps - 1)) && env.reply(steps - 1) == Some("")
  }

  /**
   * A run of at most `maxSteps` agent steps: `steps` of them were begun, and the events are the whole
   * log of those steps; or a delivery failed, and the log is cut there and ends with the fallback.
   */
  predicate IsRun(env: Env, maxSteps: nat, outcome: Outcome, steps: nat, events: seq<Event>, attempts: seq<bool>,
                  status: Status)
  {
    && steps <= maxSteps && Reaches(env, steps) && Follows(env, attempts)
    && if AllTrue(attempts) then
         |attempts| == |events| && events == WholeLog(env, steps) && StopsFor(env, maxSteps, steps, outcome, status)
       else
         && Begun(env, steps) < |attempts| <= |WholeLog(env, steps)| && outcome == Ended && status == Failed
         && events == WholeLog(env, steps)[..|attempts|] + [ScenarioFinished(Failed)]
  }

  // ----- the payment boundary

  /** An order id was reported as payable only for a proven payment of this step. */
  predicate IsPaidBy(env: Env, n: nat, e: Event) {
    && IsCompletion(env.step(n))
    && var out := env.step(n).out;
    && IsProvenPayment(env.domain, out)
    && out.orderId.Some? && e == PaymentReady(out.orderId.value, VerifyCompletedPayment(env.domain, out).evidence.host)
  }

  predicate IsUnverifiedBy(env: Env, n: nat, e: Event) {
    && IsCompletion(env.step(n))
    && var out := env.step(n).out;
    && IsUnknownMerchantPayment(env.domain, out)
    && e == PaymentUnverified(out.orderId, VerifyCompletedPayment(env.domain, out).evidence.provider,
                              VerifyCompletedPayment(env.domain, out).evidence.host)
  }

  /** This event of a run whose last step is number `steps` keeps to the payment boundary. */
  predicate KeepsBoundary(env: Env, steps: nat, e: Event) {
    && (e.PaymentReady? ==> steps > 0 && IsPaidBy(env, steps - 1, e))
    && (e.PaymentUnverified? ==> steps > 0 && IsUnverifiedBy(env, steps - 1, e))
  }

  predicate IsPlain(e: Event) {
    !e.ScenarioFinished? && !e.PaymentReady? && !e.PaymentUnverified?
  }

  lemma {:induction false} LogIsPlain(env: Env, steps: nat)
    ensures forall i | 0 <= i < |Log(env, steps)| :: IsPlain(Log(env, steps)[i])
  {
    if steps > 0 {
      LogIsPlain(env, steps - 1);
    }
  }

  lemma EndingKeepsBoundary(env: Env, steps: nat)
    ensures forall i | 0 <= i < |Ending(env, steps)| :: KeepsBoundary(env, steps, Ending(env, steps)[i])
  {
  }

  /** Whatever happens, `payment_ready` and `payment_unverified` report only what the verifier found. */
  lemma PaymentBoundary(env: Env, maxSteps: nat, outcome: Outcome, steps: nat, events: seq<Event>, attempts: seq<bool>,
                        status: Status, i: nat)
    requires IsRun(env, maxSteps, outcome, steps, events, attempts, status) && i < |events|
    ensures KeepsBoundary(env, steps, events[i])
  {
    LogIsPlain(env, steps);
    EndingKeepsBoundary(env, steps);
    if i < |attempts| {
      assert events[i] == WholeLog(env, steps)[i];
    }
  }

  /** A session that reported a payment as ready never also reports it as unverified. */
  lemma PaidIsNeverUnverified(env: Env, maxSteps: nat, outcome: Outcome, steps: nat, events: seq<Event>,
                              attempts: seq<bool>, status: Status, i: nat, j: nat)
    requires IsRun(env, maxSteps, outcome, steps, events, attempts, status) && i < |events| && j < |events|
    ensures !(events[i].PaymentReady? && events[j].PaymentUnverified?)
  {
    PaymentBoundary(env, maxSteps, outcome, steps, events, attempts, status, i);
    PaymentBoundary(env, maxSteps, outcome, steps, events, attempts, status, j);
  }

  /** A completed session was paid for, and said so. */
  lemma CompletedIsPaid(env: Env, maxSteps: nat, outcome: Outcome, steps: nat, events: seq<Event>, attempts: seq<bool>,
                        status: Status)
    requires IsRun(env, maxSteps, outcome, steps, events, attempts, status) && outcome == Ended && AllTrue(attempts)
    ensures status == Completed <==> steps > 0 && IsCompletion(env.step(steps - 1))
                                     && IsProvenPayment(env.domain, env.step(steps - 1).out)
    ensures status == Completed ==> exists i | 0 <= i < |events| :: events[i].PaymentReady? && IsPaidBy(env, steps - 1, events[i])
  {
    if status == Completed {
      var out := env.step(steps - 1).out;
      var v := VerifyCompletedPayment(env.domain, out);
      OrderIsReported(out);
      assert Ending(env, steps)[0] == PaymentReady(out.orderId.value, v.evidence.host);
      assert events[|Log(env, steps)|] == Ending(env, steps)[0];
    }
  }

  lemma OrderIsReported(out: AgentOutput)
    requires OrderId(out) != ""
    ensures out.orderId.Some? && out.orderId.value != ""
  {
  }

  // ----- the final event

  function Finishes(events: seq<Event>): nat {
    if events == [] then 0
    else (if events[|events| - 1].ScenarioFinished? then 1 else 0) + Finishes(events[..|events| - 1])
  }

  function LastFinish(events: seq<Event>): Option<Status> {
    if events == [] then None
    else if events[|events| - 1].ScenarioFinished? then Some(events[|events| - 1].status)
    else LastFinish(events[..|events| - 1])
  }

  lemma FinishesAppend(events: seq<Event>, e: Event)
    ensures Finishes(events + [e]) == Finishes(events) + if e.ScenarioFinished? then 1 else 0
    ensures LastFinish(events + [e]) == if e.ScenarioFinished? then Some(e.status) else LastFinish(events)
  {
    assert (events + [e])[..|events|] == events;
  }

  lemma {:induction false} NoFinish(events: seq<Event>)
    requires forall i | 0 <= i < |events| :: !events[i].ScenarioFinished?
    ensures Finishes(events) == 0 && LastFinish(events) == None
  {
    if events != [] {
      NoFinish(events[..|events| - 1]);
    }
  }

  /** An ending is plain events of a payment, and then one final event with the status. */
  lemma EndingFinishes(env: Env, steps: nat)
    requires Ending(env, steps) != []
    ensures var e := Ending(env, steps);
      && e[|e| - 1] == ScenarioFinished(EndStatus(env, steps))
      && forall i | 0 <= i < |e| - 1 :: !e[i].ScenarioFinished?
  {
  }

  lemma WholeLogFinishes(env: Env, steps: nat)
    ensures Finishes(WholeLog(env, steps)) == if Ending(env, steps) == [] then 0 else 1
    ensures Ending(env, steps) != [] ==> LastFinish(WholeLog(env, steps)) == Some(EndStatus(env, steps))
  {
    LogIsPlain(env, steps);
    var log, end := WholeLog(env, steps), Ending(env, steps);
    if end == [] {
      NoFinish(log);
    } else {
      EndingFinishes(env, steps);
      NoFinish(log[..|log| - 1]);
      assert log == log[..|log| - 1] + [ScenarioFinished(EndStatus(env, steps))];
      FinishesAppend(log[..|log| - 1], ScenarioFinished(EndStatus(env, steps)));
    }
  }

  /**
   * A session that ended has the status of its last final event, and exactly one such event if every
   * delivery succeeded; a session that did not end has none.
   */
  lemma FinalEventTellsStatus(env: Env, maxSteps: nat, outcome: Outcome, steps: nat, events: seq<Event>,
                              attempts: seq<bool>, status: Status)
    requires IsRun(env, maxSteps, outcome, steps, events, attempts, status)
    ensures outcome == Ended ==> LastFinish(events) == Some(status) && status !in {Running, WaitingUser}
    ensures AllTrue(attempts) ==> Finishes(events) == if outcome == Ended then 1 else 0
  {
    WholeLogFinishes(env, steps);
    if AllTrue(attempts) {
      assert outcome == Ended <==> Ending(env, steps) != [];
    } else {
      FinishesAppend(WholeLog(env, steps)[..|attempts|], ScenarioFinished(Failed));
    }
  }

  // ----- recovery is bounded

  /** How many of the first n events start a step. */
  function StartedBy(events: seq<Event>, n: nat): nat
    requires n <= |events|
  {
    if n == 0 then 0 else StartedBy(events, n - 1) + if events[n - 1].StepStarted? then 1 else 0
  }

  function StepsStarted(events: seq<Event>): nat {
    StartedBy(events, |events|)
  }

  lemma {:induction false} StartedByPrefix(a: seq<Event>, b: seq<Event>, n: nat)
    requires n <= |a| && n <= |b| && forall i | 0 <= i < n :: a[i] == b[i]
    ensures StartedBy(a, n) == StartedBy(b, n)
  {
    if n > 0 {
      StartedByPrefix(a, b, n - 1);
    }
  }

  lemma {:induction false} NoneStarted(events: seq<Event>, from: nat, n: nat)
    requires from <= n <= |events| && forall i | from <= i < n :: !events[i].StepStarted?
    ensures StartedBy(events, n) == StartedBy(events, from)
  {
    if from < n {
      NoneStarted(events, from, n - 1);
    }
  }

  predicate IsOneStart(events: seq<Event>) {
    |events| > 0 && events[0].StepStarted? && forall i | 1 <= i < |events| :: !events[i].StepStarted?
  }

  /** One more step begins: its first event starts it and no other event of it starts one. */
  lemma OneMoreStart(front: seq<Event>, last: seq<Event>, cut: nat)
    requires IsOneStart(last) && |front| < cut <= |front + last|
    ensures StartedBy(front + last, cut) == StepsStarted(front) + 1
  {
    StartedByPrefix(front + last, front, |front|);
    assert StartedBy(front + last, |front| + 1) == StartedBy(front + last, |front|) + 1;
    NoneStarted(front + last, |front| + 1, cut);
  }

  lemma EndingStartsNone(env: Env, steps: nat, i: nat)
    requires i < |Ending(env, steps)|
    ensures !Ending(env, steps)[i].StepStarted?
  {
    if steps > 0 && IsCompletion(env.step(steps - 1)) {
      var out := env.step(steps - 1).out;
      assert Ending(env, steps) == CompletedEvents(out, VerifyCompletedPayment(env.domain, out));
    }
  }

  lemma LastStepStartsOnce(env: Env, n: nat)
    ensures IsOneStart(StepEvents(env, n)) && IsOneStart(StepEvents(env, n) + Ending(env, n + 1))
  {
    var end := Ending(env, n + 1);
    forall i | 0 <= i < |end|
      ensures !end[i].StepStarted?
    {
      EndingStartsNone(env, n + 1, i);
    }
  }

  lemma SetupCountsNone(env: Env)
    ensures StepsStarted(Log(env, 0)) == 0
  {
    NoneStarted(Log(env, 0), 0, 1);
  }

  lemma LogCountsNext(env: Env, n: nat, steps: nat)
    requires steps == n + 1
    ensures StepsStarted(Log(env, steps)) == StepsStarted(Log(env, n)) + 1
  {
    LastStepStartsOnce(env, n);
    var front, last := Log(env, n), StepEvents(env, n);
    OneMoreStart(front, last, |front + last|);
  }

  /** The log of n steps starts n of them. */
  lemma {:induction false} LogCountsSteps(env: Env, steps: nat)
    ensures StepsStarted(Log(env, steps)) == steps
  {
    if steps == 0 {
      SetupCountsNone(env);
    } else {
      LogCountsSteps(env, steps - 1);
      LogCountsNext(env, steps - 1, steps);
    }
  }

  lemma WholeLogByStep(env: Env, n: nat)
    ensures WholeLog(env, n + 1) == Log(env, n) + (StepEvents(env, n) + Ending(env, n + 1))
  {
    Associative(Log(env, n), StepEvents(env, n), Ending(env, n + 1));
  }

  lemma CutLogCountsSteps(env: Env, n: nat, steps: nat, cut: nat)
    requires steps == n + 1 && Begun(env, steps) < cut <= |WholeLog(env, steps)|
    ensures StartedBy(WholeLog(env, steps), cut) == steps
  {
    var front, last := Log(env, n), StepEvents(env, n) + Ending(env, n + 1);
    LogCountsSteps(env, n);
    LastStepStartsOnce(env, n);
    WholeLogByStep(env, n);
    OneMoreStart(front, last, cut);
  }

  lemma SetupStartsNone(env: Env, cut: nat)
    requires cut <= |WholeLog(env, 0)|
    ensures StartedBy(WholeLog(env, 0), cut) == 0
  {
    NoneStarted(WholeLog(env, 0), 0, cut);
  }

  /** However a log is cut within its last step, its steps are counted. */
  lemma CutCountsSteps(env: Env, steps: nat, cut: nat)
    requires Begun(env, steps) < cut <= |WholeLog(env, steps)|
    ensures StartedBy(WholeLog(env, steps), cut) == steps
  {
    if steps == 0 {
      SetupStartsNone(env, cut);
    } else {
      CutLogCountsSteps(env, steps - 1, steps, cut);
    }
  }

  /** The steps of a run are those its events tell of. */
  lemma RunCountsSteps(env: Env, maxSteps: nat, outcome: Outcome, steps: nat, events: seq<Event>, attempts: seq<bool>,
                       status: Status)
    requires IsRun(env, maxSteps, outcome, steps, events, attempts, status)
    ensures StepsStarted(events) == steps
  {
    var whole := WholeLog(env, steps);
    var cut := if AllTrue(attempts) then |whole| else |attempts|;
    CutCountsSteps(env, steps, cut);
    StartedByPrefix(whole, events, cut);
    NoneStarted(events, cut, |events|);
  }

  /** The steps from a to b were all retried. */
  predicate AllRetried(env: Env, a: nat, b: nat) {
    a <= b && forall n | a <= n <= b :: Retries(env, n)
  }

  lemma {:induction false} StretchReaches(env: Env, a: nat, n: nat)
    requires a <= n && forall k | a <= k < n :: IsTransient(env.step(k))
    ensures StretchStart(env, n) <= a
    ensures forall k | StretchStart(env, n) <= k < n :: IsTransient(env.step(k))
  {
    if n > 0 && IsTransient(env.step(n - 1)) {
      StretchReaches(env, if a < n then a else n - 1, n - 1);
    }
  }

  lemma {:induction false} StretchTakesTime(env: Env, first: nat, last: nat)
    requires env.Valid() && first <= last
    requires forall n | first <= n < last :: IsTransient(env.step(n))
    ensures env.time(last) - env.time(first) >= (last - first) as real * env.interval
    decreases last
  {
    if first < last {
      StretchTakesTime(env, first, last - 1);
      assert IsTransient(env.step(last - 1));
      assert (last - first) as real * env.interval == (last - 1 - first) as real * env.interval + env.interval;
    }
  }

  lemma QuotientBound(n: nat, interval: real, window: real)
    requires interval > 0.0 && n as real * interval <= window
    ensures n <= (window / interval).Floor
  {
    assert n as real <= window / interval;
  }

  /** An unbroken stretch of passing failures is retried at most floor(window / interval) + 1 times. */
  lemma RetriesBounded(env: Env, a: nat, b: nat)
    requires env.Valid() && AllRetried(env, a, b)
    ensures b - a + 1 <= env.MaxRetries()
  {
    assert Retries(env, b);
    forall k | a <= k < b
      ensures IsTransient(env.step(k))
    {
      assert Retries(env, k);
    }
    var first := StretchStart(env, b);
    StretchReaches(env, a, b);
    StretchTakesTime(env, first, b);
    assert (b - first) as real * env.interval <= env.window;
    QuotientBound(b - first, env.interval, env.window);
  }

  /**
   * Over a whole run: an unbroken stretch of passing failures is at most one longer than the retries a
   * window admits, and a failure that ends the session came after its window.
   */
  lemma RecoveryIsBounded(env: Env, maxSteps: nat, outcome: Outcome, steps: nat, events: seq<Event>,
                          attempts: seq<bool>, status: Status, a: nat, b: nat)
    requires env.Valid() && IsRun(env, maxSteps, outcome, steps, events, attempts, status)
    requires a <= b < steps && forall n | a <= n <= b :: IsTransient(env.step(n))
    ensures b - a <= env.MaxRetries()
    ensures b == steps - 1 && outcome == Ended && AllTrue(attempts) ==> Elapsed(env, b) > env.window && status == Failed
  {
    if a < b {
      forall n | a <= n <= b - 1
        ensures Retries(env, n)
      {
        assert GoesOn(env, n);
      }
      RetriesBounded(env, a, b - 1);
    } else {
      QuotientBound(0, env.interval, env.window);
    }
  }

  // ----- the session

  /** The log of step n with its two events, before a question. */
  lemma LogOfStep(env: Env, n: nat)
    ensures Log(env, n + 1) == Log(env, n) + StepEvents(env, n)
    ensures env.step(n).Returned? && !IsQuestion(env.step(n)) ==>
      StepEvents(env, n) == [StepStarted(n + 1), StepFinished(n + 1, env.step(n).out.status)]
  {
  }

  /** The loop's recovery counters after the first n steps. */
  function StartedAt(env: Env, n: nat): Option<real> {
    if n > 0 && IsTransient(env.step(n - 1)) then Some(env.time(StretchStart(env, n - 1))) else None
  }

  function RetryCount(env: Env, n: nat): nat {
    if n > 0 && IsTransient(env.step(n - 1)) then n - StretchStart(env, n - 1) else 0
  }

  class SessionRun {
    const env: Env
    var events: seq<Event>
    var attempts: seq<bool>
    var status: Status

    constructor (env: Env)
      ensures this.env == env && events == [] && attempts == [] && status == Running
    {
      this.env := env;
      events, attempts, status := [], [], Running;
    }

    /** Everything so far was tried and delivered. */
    ghost predicate Clear()
      reads this
    {
      Tried(env, events, attempts) && AllTrue(attempts)
    }

    /** `_emit_event`: the event is stored before its delivery is attempted. */
    method EmitEvent(e: Event) returns (ok: bool)
      requires Clear()
      modifies this`events, this`attempts
      ensures events == old(events) + [e] && Tried(env, events, attempts)
      ensures ok == env.delivers(|old(events)|) == AllTrue(attempts)
    {
      events := events + [e];
      ok := env.delivers(|attempts|);
      attempts := attempts + [ok];
      assert attempts[|attempts| - 1] == ok && attempts[..|attempts| - 1] == old(attempts);
    }

    /** `_handle_failed`. */
    method HandleFailed() returns (ok: bool)
      requires Clear()
      modifies this
      ensures Tried(env, events, attempts) && ok == AllTrue(attempts)
      ensures SentUpTo(old(events), FailedEvents(), events, ok)
      ensures status == if ok then Failed else old(status)
    {
      ok := EmitEvent(ScenarioFinished(Failed));
      if ok {
        status := Failed;
      }
    }

    /** `_handle_completed`, for an accepted verification. */
    method HandleCompleted(out: AgentOutput, v: Verification) returns (ok: bool)
      requires v.Accepted? && v.evidence.host in {PAYECOM_HOST, YOOMONEY_HOST} && Clear()
      modifies this
      ensures Tried(env, events, attempts) && ok == AllTrue(attempts)
      ensures SentUpTo(old(events), CompletedEvents(out, v), events, ok)
      ensures status == if ok then Completed else old(status)
    {
      if out.orderId.Some? && out.orderId.value != "" {
        ok := EmitEvent(PaymentReady(out.orderId.value, v.evidence.host));
        if !ok {
          return;
        }
      }
      ok := EmitEvent(ScenarioFinished(Completed));
      if ok {
        status := Completed;
      }
    }

    /** `_handle_unverified`. */
    method HandleUnverified(out: AgentOutput, v: Verification) returns (ok: bool)
      requires v.Unverified? && Clear()
      modifies this
      ensures Tried(env, events, attempts) && ok == AllTrue(attempts)
      ensures SentUpTo(old(events), CompletedEvents(out, v), events, ok)
      ensures status == if ok then UnverifiedStatus else old(status)
    {
      ok := EmitEvent(PaymentUnverified(out.orderId, v.evidence.provider, v.evidence.host));
      if !ok {
        return;
      }
      ok := EmitEvent(ScenarioFinished(UnverifiedStatus));
      if ok {
        status := UnverifiedStatus;
      }
    }

    /** `_ask_user_for_reply` for the question of this step. */
    method AskUserForReply(n: nat) returns (result: Signal)
      requires Clear() && status == Running && IsQuestion(env.step(n))
      modifies this
      ensures events == old(events) + [AskUser(n)] && Tried(env, events, attempts)
      ensures result == if !AllTrue(attempts) then DeliveryFailed
                        else if env.reply(n).None? then Paused
                        else if env.reply(n).value == "" then EmptyAnswer
                        else Handled
      ensures status == if result in {DeliveryFailed, Paused} then WaitingUser else Running
    {
      status := WaitingUser;
      var ok := EmitEvent(AskUser(n));
      if !ok {
        return DeliveryFailed;
      }
      if env.reply(n).None? {
        return Paused;
      }
      status := Running;
      return if env.reply(n).value == "" then EmptyAnswer else Handled;
    }

    /** What the loop does with a completed result. */
    method FinishCompleted(n: nat) returns (ok: bool)
      requires IsCompletion(env.step(n)) && Clear()
      modifies this
      ensures Tried(env, events, attempts) && ok == AllTrue(attempts)
      ensures SentUpTo(old(events), Ending(env, n + 1), events, ok)
      ensures ok ==> status == EndStatus(env, n + 1)
    {
      var out := env.step(n).out;
      var v := VerifyCompletedPayment(env.domain, out);
      match v {
        case Accepted(_) => ok := HandleCompleted(out, v);
        case Unverified(_) => ok := HandleUnverified(out, v);
        case Rejected =>
          assert FailedEvents() == CompletedEvents(out, v);
          ok := HandleFailed();
      }
    }

    /** The agent step at the head of the loop body, with the two events around it. */
    method TakeStep(n: nat) returns (signal: Signal)
      requires Clear()
      modifies this`events, this`attempts
      ensures Tried(env, events, attempts) && AllTrue(attempts) == (signal != DeliveryFailed)
      ensures signal == Handled ==>
        env.step(n).Returned? && events == old(events) + [StepStarted(n + 1), StepFinished(n + 1, env.step(n).out.status)]
      ensures signal == OtherError ==> env.step(n).Raised? && events == old(events) + [StepStarted(n + 1)]
      ensures signal in {Handled, OtherError, DeliveryFailed} && SentUpTo(old(events), StepEvents(env, n), events, false)
    {
      var ok := EmitEvent(StepStarted(n + 1));
      if !ok {
        return DeliveryFailed;
      }
      if env.step(n).Raised? {
        return OtherError;
      }
      ok := EmitEvent(StepFinished(n + 1, env.step(n).out.status));
      return if ok then Handled else DeliveryFailed;
    }

    /** What the loop does with a result that is neither a question nor a completion. */
    method RetryOrFail(n: nat, startedAt0: Option<real>, retries0: nat)
      returns (again: bool, ok: bool, startedAt: Option<real>, retries: nat)
      requires Clear() && startedAt0 == StartedAt(env, n) && retries0 == RetryCount(env, n)
      requires env.step(n).Returned? && !IsQuestion(env.step(n)) && !IsCompletion(env.step(n))
      modifies this
      ensures again == Retries(env, n)
      ensures again ==> events == old(events) && attempts == old(attempts) && status == old(status)
      ensures again ==> startedAt == StartedAt(env, n + 1) && retries == RetryCount(env, n + 1)
      ensures !again ==> Tried(env, events, attempts) && ok == AllTrue(attempts)
      ensures !again ==> SentUpTo(old(events), FailedEvents(), events, ok)
      ensures !again && ok ==> status == Failed
    {
      if env.step(n).out.transientFailure {
        var now := env.time(n);
        startedAt := if startedAt0.None? then Some(now) else startedAt0;
        if now - startedAt.value <= env.window {
          return true, true, startedAt, retries0 + 1;
        }
      }
      ok := HandleFailed();
      return false, ok, None, 0;
    }

    /** Where the loop stands after these steps, and why it left off if it did. */
    ghost predicate LeftOff(steps: nat, signal: Signal)
      reads this
    {
      && Tried(env, events, attempts) && AllTrue(attempts) == (signal != DeliveryFailed)
      && match signal
         case Again =>
           events == Log(env, steps) && status == Running && (if steps == 0 then !env.setupRaises else GoesOn(env, steps - 1))
         case Handled =>
           steps > 0 && Ends(env, steps - 1) && events == WholeLog(env, steps) && status == EndStatus(env, steps)
         case DeliveryFailed => Begun(env, steps) < |events| && events <= WholeLog(env, steps)
         case OtherError =>
           events == Log(env, steps) && status == Running && (if steps == 0 then env.setupRaises else env.step(steps - 1).Raised?)
         case Paused =>
           && steps > 0 && IsQuestion(env.step(steps - 1)) && env.reply(steps - 1).None?
           && events == Log(env, steps) && status == WaitingUser
         case EmptyAnswer =>
           && steps > 0 && IsQuestion(env.step(steps - 1)) && env.reply(steps - 1) == Some("")
           && events == Log(env, steps) && status == Running
    }

    /** A question: the recovery counters start over, and the loop goes on if the answer is not empty. */
    method TakeAnswer(n: nat) returns (signal: Signal)
      requires Clear() && status == Running && IsQuestion(env.step(n))
      requires events == Log(env, n) + [StepStarted(n + 1), StepFinished(n + 1, env.step(n).out.status)]
      modifies this
      ensures LeftOff(n + 1, signal) && signal in {Again, DeliveryFailed, Paused, EmptyAnswer}
    {
      var asked := AskUserForReply(n);
      Associative(Log(env, n), [StepStarted(n + 1), StepFinished(n + 1, env.step(n).out.status)], [AskUser(n)]);
      assert WholeLog(env, n + 1) == Log(env, n + 1);
      signal := if asked == Handled then Again else asked;
    }

    /** A completion or a failure for good: the handler's events end the log of the step. */
    lemma EndedLog(n: nat, before: seq<Event>, ok: bool)
      requires env.step(n).Returned? && !IsQuestion(env.step(n)) && !Retries(env, n)
      requires before == Log(env, n) + [StepStarted(n + 1), StepFinished(n + 1, env.step(n).out.status)]
      requires Tried(env, events, attempts) && ok == AllTrue(attempts)
      requires SentUpTo(before, Ending(env, n + 1), events, ok) && (ok ==> status == EndStatus(env, n + 1))
      ensures LeftOff(n + 1, if ok then Handled else DeliveryFailed)
    {
      LogOfStep(env, n);
    }

    /** One turn of the loop. */
    method TakeTurn(n: nat, startedAt0: Option<real>, retries0: nat)
      returns (signal: Signal, startedAt: Option<real>, retries: nat)
      requires LeftOff(n, Again) && startedAt0 == StartedAt(env, n) && retries0 == RetryCount(env, n)
      modifies this
      ensures LeftOff(n + 1, signal)
      ensures signal == Again ==> startedAt == StartedAt(env, n + 1) && retries == RetryCount(env, n + 1)
    {
      startedAt, retries := None, 0;
      LogOfStep(env, n);
      signal := TakeStep(n);
      if signal != Handled {
        return;
      }
      var r := env.step(n);
      if r.out.status == "needs_user_input" {
        signal := TakeAnswer(n);
        return;
      }
      ghost var before := events;
      var ok;
      if r.out.status == "completed" {
        ok := FinishCompleted(n);
      } else {
        var again;
        again, ok, startedAt, retries := RetryOrFail(n, startedAt0, retries0);
        if again {
          return Again, startedAt, retries;
        }
      }
      EndedLog(n, before, ok);
      signal := if ok then Handled else DeliveryFailed;
    }

    /** `_run_session` without its exception handlers, for at most this many agent steps. */
    method RunSteps(maxSteps: nat) returns (signal: Signal, ghost steps: nat)
      requires events == [] && attempts == [] && status == Running
      modifies this
      ensures steps <= maxSteps && Reaches(env, steps) && LeftOff(steps, signal)
      ensures signal == Again ==> steps == maxSteps
    {
      steps := 0;
      var ok := EmitEvent(SessionStarted);
      if !ok {
        return DeliveryFailed, 0;
      }
      if env.setupRaises {
        return OtherError, 0;
      }
      var n: nat, startedAt: Option<real>, retries: nat := 0, None, 0;
      signal := Again;
      while n < maxSteps
        invariant n <= maxSteps && steps == n && signal == Again && LeftOff(n, Again) && Reaches(env, n)
        invariant startedAt == StartedAt(env, n) && retries == RetryCount(env, n)
      {
        signal, startedAt, retries := TakeTurn(n, startedAt, retries);
        n, steps := n + 1, n + 1;
        if signal != Again {
          return;
        }
      }
    }

    /** The fallback after a delivery that failed for good: the final event is stored, not delivered. */
    method RecordUndelivered()
      modifies this
      ensures status == Failed && events == old(events) + [ScenarioFinished(Failed)] && attempts == old(attempts)
    {
      status := Failed;
      events := events + [ScenarioFinished(Failed)];
    }

    /** A loop that stopped without an error has not ended the session. */
    lemma StoppedRun(maxSteps: nat, steps: nat, signal: Signal)
      requires LeftOff(steps, signal) && signal in {Again, Paused, EmptyAnswer}
      requires steps <= maxSteps && Reaches(env, steps) && (signal == Again ==> steps == maxSteps)
      ensures IsRun(env, maxSteps, if signal == EmptyAnswer then Abandoned else Suspended, steps, events, attempts, status)
    {
      assert WholeLog(env, steps) == Log(env, steps);
    }

    /** `_run_session`: every way the loop leaves off, with its exception handlers. */
    method RunSession(maxSteps: nat) returns (outcome: Outcome, ghost steps: nat)
      requires events == [] && attempts == [] && status == Running
      modifies this
      ensures IsRun(env, maxSteps, outcome, steps, events, attempts, status)
    {
      var signal;
      signal, steps := RunSteps(maxSteps);
      if signal in {Again, Paused, EmptyAnswer} {
        StoppedRun(maxSteps, steps, signal);
        return if signal == EmptyAnswer then Abandoned else Suspended, steps;
      }
      outcome := Ended;
      var ok := signal == Handled;
      if signal == OtherError {
        ok := HandleFailed();
      }
      if !ok {
        RecordUndelivered();
      }
    }
  }
}
