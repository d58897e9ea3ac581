/**
 * The eval run as a state machine (eval_service/app/orchestrator.py and callbacks.py).
 * Workers, buyer callbacks and operator replies interleave freely. A step is one visit of the
 * run loop, one poll, or one side of an await; every block the service runs between two awaits
 * is a sequence of such steps, so what holds for all step sequences holds for all its schedules.
 */
module EvalProtocol {
  import opened Common
  import opened RunManifest
  import opened Callbacks

  /** Where a worker of a run stands. The index is the position of a case in the manifest. */
  datatype Worker =
    | Resuming(i: nat)   // started by an operator reply, about to wait for case i
    | Scanning(i: nat)   // at the head of the loop over the cases
    | Creating(i: nat)   // create_task for case i is in flight
    | Waiting(i: nat)    // polls case i
    | Grace(i: nat)      // sleeps the payment-ready grace period of case i
    | Refreshing         // about to refresh the run status
    | Stopped

  /** An operator reply between its claim of a case and the buyer's answer. */
  datatype Reply = Sending(i: nat, replyId: string) | Closed

  datatype Auth = AuthReady | AuthSkip(reason: string)

  datatype ReplyResult = SendFailed | Answered(accepted: bool) | Malformed

  datatype World = World(m: Manifest, workers: seq<Worker>, replies: seq<Reply>)

  datatype Step =
    | Visit(w: nat, auth: Auth, now: Time)
    | TaskCreated(w: nat, session: string, now: Time)
    | TaskFailed(w: nat, error: string, now: Time)
    | Poll(w: nat, expired: Option<string>, now: Time)
    | GraceOver(w: nat, now: Time)
    | Refresh(w: nat, now: Time)
    | Resume(w: nat, now: Time)
    | Crash(w: nat, cancelled: bool, now: Time)
    | Callback(caseId: string, e: Envelope, now: Time)
    | ClaimReply(caseId: string, replyId: Option<string>, now: Time)
    | ReplyDone(k: nat, result: ReplyResult, now: Time)

  // ----- store updates

  function Patched(r: Redactor, m: Manifest, i: nat, p: CasePatch, now: Time): Manifest
    requires i < |m.cases|
  {
    match UpdateCase(r, m, m.cases[i].id, p, None, now)
    case Ok(m') => m'
    case Err(_) => m
  }

  const START_PATCH := NO_CHANGE.(state := Set(Starting), error := Set(None))
  const CLAIM_PATCH := NO_CHANGE.(state := Set(Running), waitingReplyId := Set(None))

  function WriteRunStatus(m: Manifest, status: RunStatus, now: Time): Manifest {
    m.(status := status, updatedAt := now)
  }

  predicate AllTerminal(cases: seq<RunCase>) {
    forall i | 0 <= i < |cases| :: IsTerminal(cases[i].state)
  }

  function RefreshRunStatus(m: Manifest, now: Time): Manifest {
    WriteRunStatus(m, if AllTerminal(m.cases) then RunFinished else RunRunning, now)
  }

  predicate IsWaitOrTerminal(s: CaseState) {
    s == WaitingUser || IsTerminal(s)
  }

  // ----- the steps of a worker

  /** Where the loop goes once waiting for case i returned this state. */
  function AfterWait(i: nat, s: CaseState): Worker {
    if s == WaitingUser then Refreshing else Scanning(i + 1)
  }

  function WithWorker(x: World, w: nat, m: Manifest, pc: Worker): World
    requires w < |x.workers|
  {
    World(m, x.workers[w := pc], x.replies)
  }

  predicate IsClaim(x: World, w: nat, auth: Auth)
    requires w < |x.workers| && x.workers[w].Scanning? && x.workers[w].i <= |x.m.cases|
  {
    var i := x.workers[w].i;
    i < |x.m.cases| && x.m.cases[i].state == Pending && auth == AuthReady
  }

  function VisitCase(r: Redactor, x: World, w: nat, auth: Auth, now: Time): World
    requires w < |x.workers| && x.workers[w].Scanning? && x.workers[w].i <= |x.m.cases|
  {
    var i := x.workers[w].i;
    if i == |x.m.cases| then WithWorker(x, w, x.m, Refreshing)
    else
      var s := x.m.cases[i].state;
      if s == WaitingUser then WithWorker(x, w, x.m, Refreshing)
      else if IsTerminal(s) then WithWorker(x, w, x.m, Scanning(i + 1))
      else if s != Pending then WithWorker(x, w, x.m, Waiting(i))
      else
        match auth
        case AuthSkip(reason) =>
          var skip := NO_CHANGE.(state := Set(SkippedAuthMissing), finishedAt := Set(Some(now)), error := Set(Some(reason)));
          WithWorker(x, w, Patched(r, x.m, i, skip, now), Scanning(i + 1))
        case AuthReady =>
          WithWorker(x, w, Patched(r, x.m, i, START_PATCH.(startedAt := Set(Some(now))), now), Creating(i))
  }

  function RecordCreatedTask(r: Redactor, m: Manifest, i: nat, session: string, now: Time): Manifest
    requires i < |m.cases|
  {
    var patch := NO_CHANGE.(sessionId := Set(Some(session)));
    if m.cases[i].state in {Pending, Starting, Running}
    then Patched(r, m, i, patch.(state := Set(Running)), now)
    else Patched(r, m, i, patch, now)
  }

  function FailurePatch(error: string, now: Time): CasePatch {
    Resolved(Failed, now, Some(error))
  }

  function PollCase(r: Redactor, x: World, w: nat, expired: Option<string>, now: Time): World
    requires w < |x.workers| && x.workers[w].Waiting? && x.workers[w].i < |x.m.cases|
  {
    var i := x.workers[w].i;
    var s := x.m.cases[i].state;
    if s == PaymentReady then WithWorker(x, w, x.m, Grace(i))
    else if IsWaitOrTerminal(s) then WithWorker(x, w, x.m, AfterWait(i, s))
    else if expired.Some? then
      var timeout := NO_CHANGE.(state := Set(Timeout), finishedAt := Set(Some(now)), error := Set(expired));
      WithWorker(x, w, Patched(r, x.m, i, timeout, now), AfterWait(i, Timeout))
    else x
  }

  function EndGrace(r: Redactor, x: World, w: nat, now: Time): World
    requires w < |x.workers| && x.workers[w].Grace? && x.workers[w].i < |x.m.cases|
  {
    var i := x.workers[w].i;
    var s := x.m.cases[i].state;
    if s == PaymentReady then
      var finish := NO_CHANGE.(state := Set(Finished), finishedAt := Set(Some(now)), waitingReplyId := Set(None));
      WithWorker(x, w, Patched(r, x.m, i, finish, now), AfterWait(i, Finished))
    else if IsWaitOrTerminal(s) then WithWorker(x, w, x.m, AfterWait(i, s))
    else WithWorker(x, w, x.m, Waiting(i))
  }

  // ----- the two sides of an operator reply

  /** The case may be answered: it waits for the operator and the reply does not name another question. */
  predicate Answerable(c: RunCase, replyId: Option<string>) {
    && c.state == WaitingUser
    && c.sessionId.Some? && c.sessionId.value != ""
    && c.waitingReplyId.Some? && c.waitingReplyId.value != ""
    && (replyId.None? || replyId == c.waitingReplyId)
  }

  function ClaimForReply(r: Redactor, x: World, caseId: string, replyId: Option<string>, now: Time): World {
    match FindIndex(x.m.cases, caseId)
    case None => x
    case Some(i) =>
      if !Answerable(x.m.cases[i], replyId) then x
      else
        World(Patched(r, x.m, i, CLAIM_PATCH, now), x.workers,
              x.replies + [Sending(i, x.m.cases[i].waitingReplyId.value)])
  }

  function RestoreWaiting(r: Redactor, m: Manifest, i: nat, replyId: string, now: Time): (m': Manifest)
    requires i < |m.cases|
    ensures |m'.cases| == |m.cases|
  {
    if m.cases[i].state == Running && m.cases[i].waitingReplyId == None
    then Patched(r, m, i, NO_CHANGE.(state := Set(WaitingUser), waitingReplyId := Set(Some(replyId))), now)
    else m
  }

  function ResumeUnlessWaiting(x: World, m: Manifest, k: nat, i: nat): World
    requires k < |x.replies| && i < |m.cases|
  {
    World(m, if m.cases[i].state == WaitingUser then x.workers else x.workers + [Resuming(i)], x.replies[k := Closed])
  }

  function FinishReply(r: Redactor, x: World, k: nat, result: ReplyResult, now: Time): World
    requires k < |x.replies| && x.replies[k].Sending? && x.replies[k].i < |x.m.cases|
  {
    var Sending(i, replyId) := x.replies[k];
    match result
    case Malformed => x.(replies := x.replies[k := Closed])
    case SendFailed => ResumeUnlessWaiting(x, RestoreWaiting(r, x.m, i, replyId, now), k, i)
    case Answered(false) => ResumeUnlessWaiting(x, RestoreWaiting(r, x.m, i, replyId, now), k, i)
    case Answered(true) =>
      if x.m.cases[i].state == WaitingUser && x.m.cases[i].waitingReplyId == Some(replyId)
      then World(Patched(r, x.m, i, CLAIM_PATCH, now), x.workers + [Resuming(i)], x.replies[k := Closed])
      else ResumeUnlessWaiting(x, x.m, k, i)
  }

  // ----- the step relation

  /** A case was handed to the buyer; only such cases can receive callbacks. */
  predicate IsStarted(m: Manifest, caseId: string) {
    var at := FindIndex(m.cases, caseId);
    at.Some? ==> m.cases[at.value].state != Pending
  }

  predicate Enabled(x: World, s: Step) {
    var n := |x.m.cases|;
    match s
    case Visit(w, _, _) => w < |x.workers| && x.workers[w].Scanning? && x.workers[w].i <= n
    case TaskCreated(w, session, _) => w < |x.workers| && x.workers[w].Creating? && x.workers[w].i < n && session != ""
    case TaskFailed(w, _, _) => w < |x.workers| && x.workers[w].Creating? && x.workers[w].i < n
    case Poll(w, _, _) => w < |x.workers| && x.workers[w].Waiting? && x.workers[w].i < n
    case GraceOver(w, _) => w < |x.workers| && x.workers[w].Grace? && x.workers[w].i < n
    case Refresh(w, _) => w < |x.workers| && x.workers[w].Refreshing?
    case Resume(w, _) => w < |x.workers| && x.workers[w].Resuming? && x.workers[w].i < n
    case Crash(w, _, _) => w < |x.workers| && !x.workers[w].Stopped?
    case Callback(caseId, _, _) => IsStarted(x.m, caseId)
    case ClaimReply(_, _, _) => true
    case ReplyDone(k, _, _) => k < |x.replies| && x.replies[k].Sending? && x.replies[k].i < n
  }

  function Next(r: Redactor, x: World, s: Step): World
    requires Enabled(x, s)
  {
    match s
    case Visit(w, auth, now) => VisitCase(r, x, w, auth, now)
    case TaskCreated(w, session, now) =>
      var i := x.workers[w].i;
      WithWorker(x, w, RecordCreatedTask(r, x.m, i, session, now), Waiting(i))
    case TaskFailed(w, error, now) =>
      var i := x.workers[w].i;
      WithWorker(x, w, Patched(r, x.m, i, FailurePatch(error, now), now), Scanning(i + 1))
    case Poll(w, expired, now) => PollCase(r, x, w, expired, now)
    case GraceOver(w, now) => EndGrace(r, x, w, now)
    case Refresh(w, now) => WithWorker(x, w, RefreshRunStatus(x.m, now), Stopped)
    case Resume(w, now) => WithWorker(x, w, WriteRunStatus(x.m, RunRunning, now), Waiting(x.workers[w].i))
    case Crash(w, cancelled, now) =>
      WithWorker(x, w, if cancelled then x.m else WriteRunStatus(x.m, RunFailed, now), Stopped)
    case Callback(caseId, e, now) => x.(m := Receive(r, x.m, caseId, e, now).0)
    case ClaimReply(caseId, replyId, now) => ClaimForReply(r, x, caseId, replyId, now)
    case ReplyDone(k, result, now) => FinishReply(r, x, k, result, now)
  }

  ghost predicate ValidRun(r: Redactor, x: World, steps: seq<Step>)
    decreases steps
  {
    steps == [] || (Enabled(x, steps[0]) && ValidRun(r, Next(r, x, steps[0]), steps[1..]))
  }

  ghost function Exec(r: Redactor, x: World, steps: seq<Step>): World
    requires ValidRun(r, x, steps)
    decreases steps
  {
    if steps == [] then x else Exec(r, Next(r, x, steps[0]), steps[1..])
  }

  /** A run just created: nothing has happened to any case, and the first worker is about to start. */
  predicate IsInitial(x: World) {
    && DistinctIds(x.m.cases) && ValidIds(x.m.cases)
    && x.m.status == RunRunning
    && (forall i | 0 <= i < |x.m.cases| ::
          x.m.cases[i].state == Pending && x.m.cases[i].waitingReplyId == None && x.m.cases[i].events == [])
    && x.workers == [Scanning(0), Refreshing] && x.replies == []
  }

  // ----- the invariant

  /** Every case that left `pending` has only terminal cases before it. */
  predicate InOrder(cases: seq<RunCase>) {
    forall i, j | 0 <= i < j < |cases| :: cases[j].state != Pending ==> IsTerminal(cases[i].state)
  }

  /** A reply id is stored exactly while the case waits for the operator. */
  predicate RepliesMatchState(cases: seq<RunCase>) {
    forall i | 0 <= i < |cases| :: cases[i].waitingReplyId.Some? <==> cases[i].state == WaitingUser
  }

  predicate TerminalBefore(cases: seq<RunCase>, i: nat) {
    i <= |cases| && forall j | 0 <= j < i :: IsTerminal(cases[j].state)
  }

  predicate Left(cases: seq<RunCase>, i: nat) {
    i < |cases| && cases[i].state != Pending
  }

  predicate WorkerOk(cases: seq<RunCase>, w: Worker) {
    match w
    case Scanning(i) => TerminalBefore(cases, i)
    case Refreshing => true
    case Stopped => true
    case _ => Left(cases, w.i)
  }

  predicate ReplyOk(cases: seq<RunCase>, p: Reply) {
    p.Sending? ==> Left(cases, p.i)
  }

  predicate WorkersOk(cases: seq<RunCase>, workers: seq<Worker>) {
    forall w | 0 <= w < |workers| :: WorkerOk(cases, workers[w])
  }

  predicate RepliesOk(cases: seq<RunCase>, replies: seq<Reply>) {
    forall k | 0 <= k < |replies| :: ReplyOk(cases, replies[k])
  }

  ghost predicate ManifestInv(m: Manifest) {
    && DistinctIds(m.cases) && ValidIds(m.cases)
    && InOrder(m.cases) && RepliesMatchState(m.cases)
    && (m.status == RunFinished ==> AllTerminal(m.cases))
    && StoredEventsDistinct(m)
  }

  ghost predicate Inv(x: World) {
    ManifestInv(x.m) && WorkersOk(x.m.cases, x.workers) && RepliesOk(x.m.cases, x.replies)
  }

  /** A case moves on: it may leave `pending` once, and it never leaves the terminal states. */
  ghost predicate Advances(cases: seq<RunCase>, cases': seq<RunCase>) {
    && |cases'| == |cases|
    && forall i | 0 <= i < |cases| ::
         && cases'[i].id == cases[i].id
         && (cases[i].state != Pending ==> cases'[i].state != Pending)
         && (IsTerminal(cases[i].state) ==> IsTerminal(cases'[i].state))
  }

  /** A manifest that is as good as before: every worker and reply keeps its footing on it. */
  ghost predicate GoodMove(m: Manifest, m': Manifest) {
    Advances(m.cases, m'.cases) && ManifestInv(m')
  }
}
