/** What every single step of an eval run keeps (eval_service/app/orchestrator.py and callbacks.py). */
module EvalSteps {
  import opened Common
  import opened RunManifest
  import opened Callbacks
  import opened EvalProtocol

  lemma WorkerKeepsFooting(cases: seq<RunCase>, cases': seq<RunCase>, w: Worker)
    requires Advances(cases, cases') && WorkerOk(cases, w)
    ensures WorkerOk(cases', w)
  {
  }

  /** What one case may become without disturbing the order of the run. */
  predicate AllowedChange(m: Manifest, i: nat, c: RunCase) {
    && i < |m.cases|
    && c.id == m.cases[i].id
    && c.state != Pending
    && (m.cases[i].state == Pending ==> TerminalBefore(m.cases, i))
    && (IsTerminal(m.cases[i].state) ==> IsTerminal(c.state))
    && (c.waitingReplyId.Some? <==> c.state == WaitingUser)
  }

  lemma ChangeIsGood(m: Manifest, i: nat, c: RunCase, now: Time)
    requires ManifestInv(m) && AllowedChange(m, i, c) && EventsDistinct(c.events)
    ensures GoodMove(m, m.(updatedAt := now, cases := m.cases[i := c]))
  {
    var cases' := m.cases[i := c];
    forall a, b | 0 <= a < b < |cases'|
      ensures cases'[a].id != cases'[b].id
      ensures cases'[b].state != Pending ==> IsTerminal(cases'[a].state)
    {
      assert m.cases[a].id != m.cases[b].id;
    }
  }

  lemma PatchIsGood(r: Redactor, m: Manifest, i: nat, p: CasePatch, now: Time)
    requires ManifestInv(m) && i < |m.cases|
    requires AllowedChange(m, i, ApplyPatch(m.cases[i], p, None))
    ensures Patched(r, m, i, p, now) == m.(updatedAt := now, cases := m.cases[i := ApplyPatch(m.cases[i], p, None)])
    ensures GoodMove(m, Patched(r, m, i, p, now))
  {
    FindIndexOfId(m.cases, i);
    ChangeIsGood(m, i, ApplyPatch(m.cases[i], p, None), now);
  }

  lemma CallbackIsGood(r: Redactor, m: Manifest, caseId: string, e: Envelope, now: Time)
    requires r.Valid() && ManifestInv(m) && IsStarted(m, caseId)
    ensures GoodMove(m, Receive(r, m, caseId, e, now).0)
    ensures var m' := Receive(r, m, caseId, e, now).0;
      forall i | 0 <= i < |m.cases| && IsTerminal(m.cases[i].state) :: m'.cases[i].state == m.cases[i].state
  {
    var at := FindIndex(m.cases, caseId);
    var m' := Receive(r, m, caseId, e, now).0;
    ApplyKeepsEventsDistinct(r, m, Deliver(caseId, e, now));
    if m' != m {
      var i := at.value;
      var stamped := e.(runId := Some(m.runId), caseId := Some(caseId));
      var patch := StateUpdates(stamped, m.cases[i]).value;
      var sessionId := if patch.sessionId.Keep? then Set(Some(e.sessionId)) else patch.sessionId;
      var c := ApplyPatch(m.cases[i], patch.(sessionId := sessionId), Some(r.Event(stamped)));
      assert m' == m.(updatedAt := now, cases := m.cases[i := c]);
      assert m'.cases[i] == c;
      ChangeIsGood(m, i, c, now);
    }
  }

  lemma StatusIsGood(m: Manifest, status: RunStatus, now: Time)
    requires ManifestInv(m)
    requires status == RunFinished ==> AllTerminal(m.cases)
    ensures GoodMove(m, WriteRunStatus(m, status, now))
  {
  }

  // ----- every step moves the manifest well

  lemma VisitIsGood(r: Redactor, x: World, w: nat, auth: Auth, now: Time)
    requires ManifestInv(x.m) && Enabled(x, Visit(w, auth, now)) && WorkerOk(x.m.cases, x.workers[w])
    ensures GoodMove(x.m, VisitCase(r, x, w, auth, now).m)
  {
    var i := x.workers[w].i;
    if i < |x.m.cases| && x.m.cases[i].state == Pending {
      match auth
      case AuthSkip(reason) =>
        PatchIsGood(r, x.m, i, NO_CHANGE.(state := Set(SkippedAuthMissing), finishedAt := Set(Some(now)), error := Set(Some(reason))), now);
      case AuthReady =>
        PatchIsGood(r, x.m, i, START_PATCH.(startedAt := Set(Some(now))), now);
    }
  }

  lemma RecordIsGood(r: Redactor, m: Manifest, i: nat, session: string, now: Time)
    requires ManifestInv(m) && Left(m.cases, i)
    ensures GoodMove(m, RecordCreatedTask(r, m, i, session, now))
  {
    var patch := NO_CHANGE.(sessionId := Set(Some(session)));
    PatchIsGood(r, m, i, if m.cases[i].state in {Pending, Starting, Running} then patch.(state := Set(Running)) else patch, now);
  }

  lemma PollIsGood(r: Redactor, x: World, w: nat, expired: Option<string>, now: Time)
    requires ManifestInv(x.m) && Enabled(x, Poll(w, expired, now)) && WorkerOk(x.m.cases, x.workers[w])
    ensures GoodMove(x.m, PollCase(r, x, w, expired, now).m)
  {
    var i := x.workers[w].i;
    if x.m.cases[i].state != PaymentReady && !IsWaitOrTerminal(x.m.cases[i].state) && expired.Some? {
      PatchIsGood(r, x.m, i, NO_CHANGE.(state := Set(Timeout), finishedAt := Set(Some(now)), error := Set(expired)), now);
    }
  }

  lemma GraceIsGood(r: Redactor, x: World, w: nat, now: Time)
    requires ManifestInv(x.m) && Enabled(x, GraceOver(w, now)) && WorkerOk(x.m.cases, x.workers[w])
    ensures GoodMove(x.m, EndGrace(r, x, w, now).m)
  {
    var i := x.workers[w].i;
    if x.m.cases[i].state == PaymentReady {
      PatchIsGood(r, x.m, i, NO_CHANGE.(state := Set(Finished), finishedAt := Set(Some(now)), waitingReplyId := Set(None)), now);
    }
  }

  lemma ClaimIsGood(r: Redactor, x: World, caseId: string, replyId: Option<string>, now: Time)
    requires ManifestInv(x.m)
    ensures GoodMove(x.m, ClaimForReply(r, x, caseId, replyId, now).m)
  {
    var at := FindIndex(x.m.cases, caseId);
    if at.Some? && Answerable(x.m.cases[at.value], replyId) {
      PatchIsGood(r, x.m, at.value, CLAIM_PATCH, now);
    }
  }

  lemma ReplyIsGood(r: Redactor, x: World, k: nat, result: ReplyResult, now: Time)
    requires ManifestInv(x.m) && Enabled(x, ReplyDone(k, result, now)) && ReplyOk(x.m.cases, x.replies[k])
    ensures GoodMove(x.m, FinishReply(r, x, k, result, now).m)
  {
    var i := x.replies[k].i;
    var c := x.m.cases[i];
    if result == Answered(true) {
      if c.state == WaitingUser && c.waitingReplyId == Some(x.replies[k].replyId) {
        PatchIsGood(r, x.m, i, CLAIM_PATCH, now);
      }
    } else if !result.Malformed? && c.state == Running && c.waitingReplyId == None {
      PatchIsGood(r, x.m, i, NO_CHANGE.(state := Set(WaitingUser), waitingReplyId := Set(Some(x.replies[k].replyId))), now);
    }
  }

  lemma WorkerStepIsGood(r: Redactor, x: World, s: Step)
    requires Inv(x) && Enabled(x, s) && (s.Visit? || s.TaskCreated? || s.TaskFailed? || s.Poll? || s.GraceOver?)
    ensures GoodMove(x.m, Next(r, x, s).m)
  {
    assert WorkerOk(x.m.cases, x.workers[s.w]);
    match s
    case Visit(w, auth, now) => VisitIsGood(r, x, w, auth, now);
    case TaskCreated(w, session, now) => RecordIsGood(r, x.m, x.workers[w].i, session, now);
    case TaskFailed(w, error, now) => PatchIsGood(r, x.m, x.workers[w].i, FailurePatch(error, now), now);
    case Poll(w, expired, now) => PollIsGood(r, x, w, expired, now);
    case GraceOver(w, now) => GraceIsGood(r, x, w, now);
  }

  lemma StepIsGood(r: Redactor, x: World, s: Step)
    requires r.Valid() && Inv(x) && Enabled(x, s)
    ensures GoodMove(x.m, Next(r, x, s).m)
  {
    match s
    case Refresh(w, now) => StatusIsGood(x.m, if AllTerminal(x.m.cases) then RunFinished else RunRunning, now);
    case Resume(w, now) => StatusIsGood(x.m, RunRunning, now);
    case Crash(w, cancelled, now) => StatusIsGood(x.m, RunFailed, now);
    case Callback(caseId, e, now) => CallbackIsGood(r, x.m, caseId, e, now);
    case ClaimReply(caseId, replyId, now) => ClaimIsGood(r, x, caseId, replyId, now);
    case ReplyDone(k, result, now) =>
      assert ReplyOk(x.m.cases, x.replies[k]);
      ReplyIsGood(r, x, k, result, now);
    case _ => WorkerStepIsGood(r, x, s);
  }

  // ----- every worker and every reply keeps its footing

  lemma StepKeepsInv(r: Redactor, x: World, s: Step)
    requires r.Valid() && Inv(x) && Enabled(x, s)
    ensures Inv(Next(r, x, s))
  {
    StepIsGood(r, x, s);
    match s
    case Callback(_, _, _) =>
      WorkersFollow(x.m.cases, Next(r, x, s).m.cases, x.workers, x.workers);
      RepliesFollow(x.m.cases, Next(r, x, s).m.cases, x.replies, x.replies);
    case ClaimReply(caseId, replyId, now) => ClaimKeepsFooting(r, x, caseId, replyId, now);
    case ReplyDone(k, result, now) => ReplyDoneKeepsFooting(r, x, k, result, now);
    case _ => WorkerStepKeepsFooting(r, x, s);
  }

  lemma WorkersFollow(cases: seq<RunCase>, cases': seq<RunCase>, workers: seq<Worker>, workers': seq<Worker>)
    requires Advances(cases, cases') && WorkersOk(cases, workers)
    requires forall w | 0 <= w < |workers'| ::
               (w < |workers| && workers'[w] == workers[w]) || WorkerOk(cases', workers'[w])
    ensures WorkersOk(cases', workers')
  {
    forall w | 0 <= w < |workers'|
      ensures WorkerOk(cases', workers'[w])
    {
      if w < |workers| && workers'[w] == workers[w] {
        WorkerKeepsFooting(cases, cases', workers[w]);
      }
    }
  }

  lemma RepliesFollow(cases: seq<RunCase>, cases': seq<RunCase>, replies: seq<Reply>, replies': seq<Reply>)
    requires Advances(cases, cases') && RepliesOk(cases, replies)
    requires forall k | 0 <= k < |replies'| ::
               (k < |replies| && replies'[k] == replies[k]) || ReplyOk(cases', replies'[k])
    ensures RepliesOk(cases', replies')
  {
    forall k | 0 <= k < |replies'| && k < |replies| && replies'[k] == replies[k]
      ensures ReplyOk(cases', replies'[k])
    {
      assert ReplyOk(cases, replies[k]);
    }
  }

  predicate IsWorkerStep(s: Step) {
    !s.Callback? && !s.ClaimReply? && !s.ReplyDone?
  }

  /** A worker's step moves that worker and nobody else. */
  lemma WorkerStepMovesOne(r: Redactor, x: World, s: Step)
    requires Enabled(x, s) && IsWorkerStep(s)
    ensures |Next(r, x, s).workers| == |x.workers| && Next(r, x, s).replies == x.replies
    ensures forall w | 0 <= w < |x.workers| && w != s.w :: Next(r, x, s).workers[w] == x.workers[w]
  {
  }

  lemma WorkerStepKeepsFooting(r: Redactor, x: World, s: Step)
    requires Inv(x) && Enabled(x, s) && IsWorkerStep(s) && GoodMove(x.m, Next(r, x, s).m)
    ensures WorkersOk(Next(r, x, s).m.cases, Next(r, x, s).workers)
    ensures RepliesOk(Next(r, x, s).m.cases, Next(r, x, s).replies)
  {
    WorkerStepMovesOne(r, x, s);
    WorkerMoves(r, x, s, s.w);
    var x' := Next(r, x, s);
    WorkersFollow(x.m.cases, x'.m.cases, x.workers, x'.workers);
    RepliesFollow(x.m.cases, x'.m.cases, x.replies, x'.replies);
  }

  lemma ClaimKeepsFooting(r: Redactor, x: World, caseId: string, replyId: Option<string>, now: Time)
    requires Inv(x) && GoodMove(x.m, ClaimForReply(r, x, caseId, replyId, now).m)
    ensures WorkersOk(ClaimForReply(r, x, caseId, replyId, now).m.cases, x.workers)
    ensures RepliesOk(ClaimForReply(r, x, caseId, replyId, now).m.cases, ClaimForReply(r, x, caseId, replyId, now).replies)
  {
    var x' := ClaimForReply(r, x, caseId, replyId, now);
    WorkersFollow(x.m.cases, x'.m.cases, x.workers, x.workers);
    RepliesFollow(x.m.cases, x'.m.cases, x.replies, x'.replies);
  }

  /** The reply that ends closes, and one worker may start for its case. */
  lemma ReplyDoneMovesOne(r: Redactor, x: World, k: nat, result: ReplyResult, now: Time)
    requires Enabled(x, ReplyDone(k, result, now))
    ensures var x' := FinishReply(r, x, k, result, now);
      && x'.replies == x.replies[k := Closed]
      && (x'.workers == x.workers || x'.workers == x.workers + [Resuming(x.replies[k].i)])
  {
  }

  lemma ReplyDoneKeepsFooting(r: Redactor, x: World, k: nat, result: ReplyResult, now: Time)
    requires Inv(x) && Enabled(x, ReplyDone(k, result, now)) && GoodMove(x.m, FinishReply(r, x, k, result, now).m)
    ensures var x' := FinishReply(r, x, k, result, now);
      WorkersOk(x'.m.cases, x'.workers) && RepliesOk(x'.m.cases, x'.replies)
  {
    assert ReplyOk(x.m.cases, x.replies[k]);
    ReplyDoneMovesOne(r, x, k, result, now);
    var x' := FinishReply(r, x, k, result, now);
    WorkersFollow(x.m.cases, x'.m.cases, x.workers, x'.workers);
    RepliesFollow(x.m.cases, x'.m.cases, x.replies, x'.replies);
  }

  lemma AfterWaitOk(cases: seq<RunCase>, i: nat)
    requires InOrder(cases) && i < |cases| && IsWaitOrTerminal(cases[i].state)
    ensures WorkerOk(cases, AfterWait(i, cases[i].state))
    ensures IsTerminal(cases[i].state) ==> WorkerOk(cases, Scanning(i + 1))
  {
    assert Left(cases, i);
  }

  /** The worker that takes the step ends up where the manifest allows it to be. */
  lemma WorkerMoves(r: Redactor, x: World, s: Step, w: nat)
    requires Inv(x) && Enabled(x, s) && IsWorkerStep(s) && s.w == w
    requires GoodMove(x.m, Next(r, x, s).m)
    ensures WorkerOk(Next(r, x, s).m.cases, Next(r, x, s).workers[w])
  {
    assert WorkerOk(x.m.cases, x.workers[w]);
    match s
    case Visit(_, auth, now) => VisitMoves(r, x, w, auth, now);
    case TaskFailed(_, error, now) => TaskMoves(r, x, w, s);
    case TaskCreated(_, _, _) => TaskMoves(r, x, w, s);
    case Poll(_, expired, now) => PollMoves(r, x, w, expired, now);
    case GraceOver(_, now) => GraceMoves(r, x, w, now);
    case _ =>
  }

  lemma TaskMoves(r: Redactor, x: World, w: nat, s: Step)
    requires s.TaskFailed? || s.TaskCreated?
    requires ManifestInv(x.m) && Enabled(x, s) && s.w == w && WorkerOk(x.m.cases, x.workers[w])
    requires GoodMove(x.m, Next(r, x, s).m)
    ensures var x' := Next(r, x, s);
      WorkerOk(x'.m.cases, x'.workers[w])
  {
    var i := x.workers[w].i;
    FindIndexOfId(x.m.cases, i);
    var x' := Next(r, x, s);
    assert Left(x'.m.cases, i);
    if s.TaskFailed? {
      AfterWaitOk(x'.m.cases, i);
    }
  }

  lemma GraceMoves(r: Redactor, x: World, w: nat, now: Time)
    requires ManifestInv(x.m) && Enabled(x, GraceOver(w, now)) && WorkerOk(x.m.cases, x.workers[w])
    requires GoodMove(x.m, EndGrace(r, x, w, now).m)
    ensures var x' := EndGrace(r, x, w, now);
      WorkerOk(x'.m.cases, x'.workers[w])
  {
    var i := x.workers[w].i;
    FindIndexOfId(x.m.cases, i);
    var x' := EndGrace(r, x, w, now);
    if IsWaitOrTerminal(x'.m.cases[i].state) {
      AfterWaitOk(x'.m.cases, i);
    }
  }

  lemma VisitMoves(r: Redactor, x: World, w: nat, auth: Auth, now: Time)
    requires ManifestInv(x.m) && Enabled(x, Visit(w, auth, now)) && WorkerOk(x.m.cases, x.workers[w])
    requires GoodMove(x.m, VisitCase(r, x, w, auth, now).m)
    ensures var x' := VisitCase(r, x, w, auth, now);
      WorkerOk(x'.m.cases, x'.workers[w])
  {
    var i := x.workers[w].i;
    if i < |x.m.cases| {
      FindIndexOfId(x.m.cases, i);
      var x' := VisitCase(r, x, w, auth, now);
      if IsTerminal(x'.m.cases[i].state) {
        AfterWaitOk(x'.m.cases, i);
      }
    }
  }

  lemma PollMoves(r: Redactor, x: World, w: nat, expired: Option<string>, now: Time)
    requires ManifestInv(x.m) && Enabled(x, Poll(w, expired, now)) && WorkerOk(x.m.cases, x.workers[w])
    requires GoodMove(x.m, PollCase(r, x, w, expired, now).m)
    ensures var x' := PollCase(r, x, w, expired, now);
      WorkerOk(x'.m.cases, x'.workers[w])
  {
    var i := x.workers[w].i;
    FindIndexOfId(x.m.cases, i);
    var x' := PollCase(r, x, w, expired, now);
    if IsWaitOrTerminal(x'.m.cases[i].state) {
      AfterWaitOk(x'.m.cases, i);
    }
  }

  // ----- terminal states

  predicate StaysTerminal(x: World, s: Step, i: nat, cases: seq<RunCase>)
    requires i < |x.m.cases|
  {
    && i < |cases|
    && cases[i].state == if s.TaskFailed? && s.w < |x.workers| && x.workers[s.w] == Creating(i) then Failed else x.m.cases[i].state
  }

  lemma TerminalStaysAtTask(r: Redactor, x: World, s: Step, i: nat)
    requires DistinctIds(x.m.cases) && ValidIds(x.m.cases) && Enabled(x, s) && (s.TaskCreated? || s.TaskFailed?)
    requires i < |x.m.cases| && IsTerminal(x.m.cases[i].state)
    ensures StaysTerminal(x, s, i, Next(r, x, s).m.cases)
  {
    FindIndexOfId(x.m.cases, x.workers[s.w].i);
  }

  lemma TerminalStaysAtWait(r: Redactor, x: World, s: Step, i: nat)
    requires DistinctIds(x.m.cases) && ValidIds(x.m.cases) && Enabled(x, s) && (s.Poll? || s.GraceOver?)
    requires i < |x.m.cases| && IsTerminal(x.m.cases[i].state)
    ensures StaysTerminal(x, s, i, Next(r, x, s).m.cases)
  {
    FindIndexOfId(x.m.cases, x.workers[s.w].i);
  }

  lemma TerminalStaysAtVisit(r: Redactor, x: World, s: Step, i: nat)
    requires DistinctIds(x.m.cases) && ValidIds(x.m.cases) && Enabled(x, s) && s.Visit?
    requires i < |x.m.cases| && IsTerminal(x.m.cases[i].state)
    ensures StaysTerminal(x, s, i, Next(r, x, s).m.cases)
  {
    if x.workers[s.w].i < |x.m.cases| {
      FindIndexOfId(x.m.cases, x.workers[s.w].i);
    }
  }

  lemma RestoreKeepsTerminal(r: Redactor, m: Manifest, at: nat, replyId: string, now: Time, i: nat)
    requires at < |m.cases| && i < |m.cases| && IsTerminal(m.cases[i].state)
    requires DistinctIds(m.cases) && ValidIds(m.cases)
    ensures RestoreWaiting(r, m, at, replyId, now).cases[i].state == m.cases[i].state
  {
    FindIndexOfId(m.cases, at);
  }

  lemma TerminalStaysAtReply(r: Redactor, x: World, s: Step, i: nat)
    requires DistinctIds(x.m.cases) && ValidIds(x.m.cases) && Enabled(x, s) && s.ReplyDone?
    requires i < |x.m.cases| && IsTerminal(x.m.cases[i].state)
    ensures StaysTerminal(x, s, i, Next(r, x, s).m.cases)
  {
    var Sending(at, replyId) := x.replies[s.k];
    if s.result == Answered(true) {
      FindIndexOfId(x.m.cases, at);
    } else {
      RestoreKeepsTerminal(r, x.m, at, replyId, s.now, i);
    }
  }

  /**
   * A terminal state is final, whatever steps are taken; only a create_task call that fails after
   * a callback already ended its case rewrites that state, to `failed`.
   */
  lemma TerminalStateStays(r: Redactor, x: World, s: Step, i: nat)
    requires r.Valid() && Inv(x) && Enabled(x, s)
    requires i < |x.m.cases| && IsTerminal(x.m.cases[i].state)
    ensures StaysTerminal(x, s, i, Next(r, x, s).m.cases)
  {
    match s
    case Callback(caseId, e, now) => CallbackIsGood(r, x.m, caseId, e, now);
    case Visit(_, _, _) => TerminalStaysAtVisit(r, x, s, i);
    case ReplyDone(_, _, _) => TerminalStaysAtReply(r, x, s, i);
    case TaskCreated(_, _, _) => TerminalStaysAtTask(r, x, s, i);
    case TaskFailed(_, _, _) => TerminalStaysAtTask(r, x, s, i);
    case Poll(_, _, _) => TerminalStaysAtWait(r, x, s, i);
    case GraceOver(_, _) => TerminalStaysAtWait(r, x, s, i);
    case _ =>
  }
}
