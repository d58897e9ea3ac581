/**
 * The blocks of eval_service/app/orchestrator.py and callbacks.py as they run between two awaits,
 * on the store. Each one is proved to take steps of EvalProtocol and no others.
 */
module Orchestrator {
  import opened Common
  import opened RunManifest
  import opened Callbacks
  import opened EvalProtocol
  import opened EvalSteps
  import opened EvalRuns

  // ----- choosing the cases of a run

  /** The picked ids without repetitions, each at its first position. */
  function Distinct(picked: seq<string>): seq<string> {
    if picked == [] then []
    else
      var rest := Distinct(picked[..|picked| - 1]);
      if picked[|picked| - 1] in rest then rest else rest + [picked[|picked| - 1]]
  }

  lemma {:induction false} DistinctHasNoDuplicates(picked: seq<string>)
    ensures NoDuplicates(Distinct(picked))
    ensures forall id :: id in Distinct(picked) <==> id in picked
  {
    if picked != [] {
      var front := picked[..|picked| - 1];
      assert picked == front + [picked[|picked| - 1]];
      DistinctHasNoDuplicates(front);
    }
  }

  method SelectCases(registry: seq<string>, picked: seq<string>) returns (selected: Result<seq<string>, string>)
    requires NoDuplicates(registry)
    ensures selected.Ok? <==> forall id | id in picked :: id in registry
    ensures selected.Ok? ==> selected.value == if picked == [] then registry else Distinct(picked)
    ensures selected.Ok? ==> NoDuplicates(selected.value)
    ensures selected.Err? ==> selected.error in picked && selected.error !in registry
  {
    if picked == [] {
      return Ok(registry);
    }
    var chosen := [];
    var seen: set<string> := {};
    for k := 0 to |picked|
      invariant chosen == Distinct(picked[..k])
      invariant forall id :: id in seen <==> id in chosen
      invariant forall id | id in picked[..k] :: id in registry
    {
      var id := picked[k];
      assert picked[..k + 1][..k] == picked[..k];
      DistinctHasNoDuplicates(picked[..k]);
      if id !in seen {
        seen := seen + {id};
        if id !in registry {
          return Err(id);
        }
        chosen := chosen + [id];
      }
    }
    assert picked[..|picked|] == picked;
    DistinctHasNoDuplicates(picked);
    return Ok(chosen);
  }

  function NewCase(id: string, version: string): RunCase {
    RunCase(id, version, Pending, None, None, None, None, None, [], map[])
  }

  // ----- one run being orchestrated

  class Orchestrator {
    const store: RunStore
    const runId: string
    var workers: seq<Worker>
    var replies: seq<Reply>

    /** The store has the run, with distinct and valid case ids. */
    ghost predicate HasRun()
      reads this, store
    {
      && runId in store.manifests
      && store.manifests[runId].runId == runId
      && DistinctIds(store.manifests[runId].cases)
      && ValidIds(store.manifests[runId].cases)
    }

    ghost function View(): World
      requires HasRun()
      reads this, store
    {
      World(store.manifests[runId], workers, replies)
    }

    /** The invariant of the protocol holds, so every block may rely on it and has to keep it. */
    ghost predicate Valid()
      reads this, store
    {
      HasRun() && store.redactor.Valid() && Inv(View())
    }

    /** `create_run`, up to the point where the first worker is scheduled. */
    constructor (store: RunStore, runId: string, selected: seq<(string, string)>, now: Time)
      requires NoDuplicates(seq(|selected|, i requires 0 <= i < |selected| => selected[i].0))
      requires forall i | 0 <= i < |selected| :: IsPathSegment(selected[i].0)
      requires store.redactor.Valid() && IsPathSegment(runId) && runId !in store.manifests
      modifies store
      ensures this.store == store && this.runId == runId
      ensures Valid() && IsInitial(View())
      ensures |store.manifests[runId].cases| == |selected|
      ensures forall i | 0 <= i < |selected| ::
                store.manifests[runId].cases[i] == NewCase(selected[i].0, selected[i].1)
      ensures store.manifests == old(store.manifests)[runId := store.manifests[runId]]
    {
      this.store := store;
      this.runId := runId;
      workers := [Scanning(0), Refreshing];
      replies := [];
      new;
      var cases := seq(|selected|, i requires 0 <= i < |selected| => NewCase(selected[i].0, selected[i].1));
      var created := store.CreateRun(runId, cases, RunPending, now);
      var running := store.UpdateRunStatus(runId, RunRunning, now);
      ghost var ids := seq(|selected|, i requires 0 <= i < |selected| => selected[i].0);
      assert forall i | 0 <= i < |ids| :: cases[i].id == ids[i];
      InitialInv(View());
    }

    /** Finds the case of the loop's current position, as `_find_case` does. */
    method FindCase(i: nat) returns (c: RunCase)
      requires HasRun() && i < |store.manifests[runId].cases|
      ensures c == store.manifests[runId].cases[i]
    {
      var cases := store.manifests[runId].cases;
      var index := RunStore.FindCaseIndex(cases, cases[i].id);
      FindIndexOfId(cases, i);
      c := cases[index.value];
    }

    /** `update_case` on the case at this position. */
    method UpdateCaseAt(i: nat, patch: CasePatch, now: Time)
      requires HasRun() && i < |store.manifests[runId].cases|
      modifies store
      ensures HasRun()
      ensures store.manifests[runId] == Patched(store.redactor, old(store.manifests)[runId], i, patch, now)
      ensures store.manifests == old(store.manifests)[runId := store.manifests[runId]]
    {
      var cases := store.manifests[runId].cases;
      FindIndexOfId(cases, i);
      UpdateExtends(store.redactor, store.manifests[runId], cases[i].id, patch, None, now);
      var updated := store.UpdateCaseWith(runId, cases[i].id, patch, None, now);
    }

    method WriteStatus(status: RunStatus, now: Time)
      requires HasRun()
      modifies store
      ensures HasRun()
      ensures store.manifests[runId] == WriteRunStatus(old(store.manifests)[runId], status, now)
      ensures store.manifests == old(store.manifests)[runId := store.manifests[runId]]
    {
      var written := store.UpdateRunStatus(runId, status, now);
    }

    /** One pass through the body of the loop in `_run_cases_until_waiting`. */
    method VisitOne(w: nat, auth: Auth, now: Time)
      requires Valid() && Enabled(View(), Visit(w, auth, now))
      modifies this, store
      ensures Valid() && View() == Next(store.redactor, old(View()), Visit(w, auth, now))
      ensures |store.manifests[runId].cases| == |old(store.manifests)[runId].cases|
    {
      StepKeepsInv(store.redactor, View(), Visit(w, auth, now));
      var i := workers[w].i;
      if i == |store.manifests[runId].cases| {
        workers := workers[w := Refreshing];
        return;
      }
      var c := FindCase(i);
      if c.state == WaitingUser {
        workers := workers[w := Refreshing];
        return;
      }
      if IsTerminal(c.state) {
        workers := workers[w := Scanning(i + 1)];
        return;
      }
      if c.state != Pending {
        workers := workers[w := Waiting(i)];
        return;
      }
      if auth.AuthSkip? {
        UpdateCaseAt(i, NO_CHANGE.(state := Set(SkippedAuthMissing), finishedAt := Set(Some(now)),
                                   error := Set(Some(auth.reason))), now);
        workers := workers[w := Scanning(i + 1)];
        return;
      }
      UpdateCaseAt(i, START_PATCH.(startedAt := Set(Some(now))), now);
      workers := workers[w := Creating(i)];
    }

    /** Since `start` the worker has made these visits, and nothing else has happened. */
    ghost predicate Visited(start: World, steps: seq<Step>, w: nat)
      reads this, store
    {
      && HasRun() && ValidRun(store.redactor, start, steps)
      && View() == Exec(store.redactor, start, steps)
      && forall k | 0 <= k < |steps| :: steps[k].Visit? && steps[k].w == w
    }

    /** The worker is in the loop over n cases, or at the await that follows it. */
    predicate InLoop(w: nat, n: nat)
      reads this`workers
    {
      && w < |workers|
      && match workers[w]
         case Scanning(i) => i <= n
         case Creating(_) => true
         case Waiting(_) => true
         case Refreshing => true
         case _ => false
    }

    ghost function VisitsLeft(w: nat, n: nat): nat
      requires InLoop(w, n)
      reads this`workers
    {
      if workers[w].Scanning? then n - workers[w].i + 1 else 0
    }

    method VisitNext(w: nat, auth: seq<Auth>, now: Time, ghost start: World, ghost steps: seq<Step>)
      returns (ghost more: seq<Step>)
      requires Valid() && |auth| == |store.manifests[runId].cases|
      requires InLoop(w, |auth|) && workers[w].Scanning? && Visited(start, steps, w)
      modifies this, store
      ensures Valid() && |store.manifests[runId].cases| == |auth|
      ensures Visited(start, more, w)
      ensures InLoop(w, |auth|) && VisitsLeft(w, |auth|) < old(VisitsLeft(w, |auth|))
    {
      var i := workers[w].i;
      var step := Visit(w, if i < |auth| then auth[i] else AuthReady, now);
      RunAppend(store.redactor, start, steps, step);
      VisitOne(w, step.auth, now);
      more := steps + [step];
    }

    /**
     * `_run_cases_until_waiting` from the worker's position to its next await: terminal and skipped
     * cases are passed, and the loop stops to create a task, to wait, or at its end.
     */
    method RunCasesUntilWaiting(w: nat, auth: seq<Auth>, now: Time) returns (ghost steps: seq<Step>)
      requires Valid() && w < |workers| && workers[w].Scanning?
      requires |auth| == |store.manifests[runId].cases|
      modifies this, store
      ensures Valid() && Visited(old(View()), steps, w)
      ensures w < |workers| && (workers[w].Creating? || workers[w].Waiting? || workers[w].Refreshing?)
    {
      steps := [];
      assert WorkerOk(store.manifests[runId].cases, workers[w]);
      while workers[w].Scanning?
        invariant Valid() && |auth| == |store.manifests[runId].cases|
        invariant Visited(old(View()), steps, w) && InLoop(w, |auth|)
        decreases VisitsLeft(w, |auth|)
      {
        steps := VisitNext(w, auth, now, old(View()), steps);
      }
    }

    /** `_record_created_task` after create_task returned a usable session id. */
    method RecordCreated(w: nat, session: string, now: Time)
      requires Valid() && Enabled(View(), TaskCreated(w, session, now))
      modifies this, store
      ensures Valid() && View() == Next(store.redactor, old(View()), TaskCreated(w, session, now))
    {
      StepKeepsInv(store.redactor, View(), TaskCreated(w, session, now));
      var i := workers[w].i;
      var c := FindCase(i);
      if c.state in {Pending, Starting, Running} {
        UpdateCaseAt(i, NO_CHANGE.(state := Set(Running), sessionId := Set(Some(session))), now);
      } else {
        UpdateCaseAt(i, NO_CHANGE.(sessionId := Set(Some(session))), now);
      }
      workers := workers[w := Waiting(i)];
    }

    /** `_mark_case_runtime_failure`; the loop then goes on with the next case. */
    method MarkRuntimeFailure(w: nat, error: string, now: Time)
      requires Valid() && Enabled(View(), TaskFailed(w, error, now))
      modifies this, store
      ensures Valid() && View() == Next(store.redactor, old(View()), TaskFailed(w, error, now))
    {
      StepKeepsInv(store.redactor, View(), TaskFailed(w, error, now));
      var i := workers[w].i;
      UpdateCaseAt(i, FailurePatch(error, now), now);
      workers := workers[w := Scanning(i + 1)];
    }

    /** One turn of the polling loop of `_wait_for_case`, up to its sleep or its return. */
    method WaitForCase(w: nat, expired: Option<string>, now: Time)
      requires Valid() && Enabled(View(), Poll(w, expired, now))
      modifies this, store
      ensures Valid() && View() == Next(store.redactor, old(View()), Poll(w, expired, now))
    {
      StepKeepsInv(store.redactor, View(), Poll(w, expired, now));
      var i := workers[w].i;
      var c := FindCase(i);
      if c.state == PaymentReady {
        workers := workers[w := Grace(i)];
        return;
      }
      if IsWaitOrTerminal(c.state) {
        workers := workers[w := AfterWait(i, c.state)];
        return;
      }
      if expired.Some? {
        UpdateCaseAt(i, NO_CHANGE.(state := Set(Timeout), finishedAt := Set(Some(now)), error := Set(expired)), now);
        workers := workers[w := Scanning(i + 1)];
      }
    }

    /** What `_wait_for_case` does when the payment-ready grace period is over. */
    method FinishAfterGrace(w: nat, now: Time)
      requires Valid() && Enabled(View(), GraceOver(w, now))
      modifies this, store
      ensures Valid() && View() == Next(store.redactor, old(View()), GraceOver(w, now))
    {
      StepKeepsInv(store.redactor, View(), GraceOver(w, now));
      var i := workers[w].i;
      var latest := FindCase(i);
      if latest.state == PaymentReady {
        UpdateCaseAt(i, NO_CHANGE.(state := Set(Finished), finishedAt := Set(Some(now)), waitingReplyId := Set(None)), now);
        workers := workers[w := Scanning(i + 1)];
        return;
      }
      workers := workers[w := if IsWaitOrTerminal(latest.state) then AfterWait(i, latest.state) else Waiting(i)];
    }

    static method CheckAllTerminal(cases: seq<RunCase>) returns (all: bool)
      ensures all <==> AllTerminal(cases)
    {
      all := true;
      for k := 0 to |cases|
        invariant all <==> AllTerminal(cases[..k])
      {
        all := all && IsTerminal(cases[k].state);
        assert cases[..k + 1] == cases[..k] + [cases[k]];
      }
      assert cases[..|cases|] == cases;
    }

    /** `_refresh_run_status`: the run is finished when every case is terminal. */
    method RefreshStatus(w: nat, now: Time)
      requires Valid() && Enabled(View(), Refresh(w, now))
      modifies this, store
      ensures Valid() && View() == Next(store.redactor, old(View()), Refresh(w, now))
    {
      StepKeepsInv(store.redactor, View(), Refresh(w, now));
      var allTerminal := CheckAllTerminal(store.manifests[runId].cases);
      WriteStatus(if allTerminal then RunFinished else RunRunning, now);
      workers := workers[w := Stopped];
    }

    /** The first block of `resume_after_operator_reply`. */
    method ResumeRun(w: nat, now: Time)
      requires Valid() && Enabled(View(), Resume(w, now))
      modifies this, store
      ensures Valid() && View() == Next(store.redactor, old(View()), Resume(w, now))
    {
      StepKeepsInv(store.redactor, View(), Resume(w, now));
      WriteStatus(RunRunning, now);
      workers := workers[w := Waiting(workers[w].i)];
    }

    method ReceiveCallback(caseId: string, e: Envelope, now: Time) returns (outcome: Outcome)
      requires Valid() && Enabled(View(), Callback(caseId, e, now))
      modifies store
      ensures Valid() && View() == Next(store.redactor, old(View()), Callback(caseId, e, now))
      ensures outcome == Receive(store.redactor, old(store.manifests)[runId], caseId, e, now).1
    {
      StepKeepsInv(store.redactor, View(), Callback(caseId, e, now));
      ApplyExtends(store.redactor, store.manifests[runId], Deliver(caseId, e, now));
      outcome := ReceiveBuyerCallback(store, runId, caseId, e, now);
    }

    /** `send_operator_reply` up to the call of the buyer: claims the case or refuses. */
    method StartReply(caseId: string, replyId: Option<string>, now: Time) returns (claimed: bool)
      requires Valid()
      modifies this, store
      ensures Valid() && View() == Next(store.redactor, old(View()), ClaimReply(caseId, replyId, now))
      ensures claimed <==> |replies| == |old(replies)| + 1
    {
      StepKeepsInv(store.redactor, View(), ClaimReply(caseId, replyId, now));
      var cases := store.manifests[runId].cases;
      var index := RunStore.FindCaseIndex(cases, caseId);
      if index.None? {
        return false;
      }
      var c := cases[index.value];
      if c.state != WaitingUser {
        return false;
      }
      if c.sessionId.None? || c.sessionId.value == "" || c.waitingReplyId.None? || c.waitingReplyId.value == "" {
        return false;
      }
      if replyId.Some? && replyId != c.waitingReplyId {
        return false;
      }
      UpdateCaseAt(index.value, CLAIM_PATCH, now);
      replies := replies + [Sending(index.value, c.waitingReplyId.value)];
      return true;
    }

    /** `_restore_operator_waiting_if_still_claimed`. */
    method RestoreWaitingIfClaimed(i: nat, replyId: string, now: Time)
      requires HasRun() && i < |store.manifests[runId].cases|
      modifies store
      ensures HasRun()
      ensures store.manifests[runId] == RestoreWaiting(store.redactor, old(store.manifests)[runId], i, replyId, now)
    {
      var c := FindCase(i);
      if c.state == Running && c.waitingReplyId == None {
        UpdateCaseAt(i, NO_CHANGE.(state := Set(WaitingUser), waitingReplyId := Set(Some(replyId))), now);
      }
    }

    /** `send_operator_reply` once the buyer answered, failed, or answered nonsense. */
    method EndReply(k: nat, result: ReplyResult, now: Time)
      requires Valid() && Enabled(View(), ReplyDone(k, result, now))
      modifies this, store
      ensures Valid() && View() == Next(store.redactor, old(View()), ReplyDone(k, result, now))
    {
      StepKeepsInv(store.redactor, View(), ReplyDone(k, result, now));
      var i, replyId := replies[k].i, replies[k].replyId;
      replies := replies[k := Closed];
      if result.Malformed? {
        return;
      }
      var resume: bool;
      if result == Answered(true) {
        var c := FindCase(i);
        resume := c.state != WaitingUser;
        if c.state == WaitingUser && c.waitingReplyId == Some(replyId) {
          UpdateCaseAt(i, CLAIM_PATCH, now);
          resume := true;
        }
      } else {
        RestoreWaitingIfClaimed(i, replyId, now);
        var c := FindCase(i);
        resume := c.state != WaitingUser;
      }
      if resume {
        workers := workers + [Resuming(i)];
      }
    }
  }
}
