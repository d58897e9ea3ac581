/** What holds over whole eval runs, in every interleaving (eval_service/app/orchestrator.py). */
module EvalRuns {
  import opened Common
  import opened RunManifest
  import opened Callbacks
  import opened EvalProtocol
  import opened EvalSteps

  lemma InitialInv(x: World)
    requires IsInitial(x)
    ensures Inv(x)
  {
  }

  lemma {:induction false} RunKeepsInv(r: Redactor, x: World, steps: seq<Step>)
    requires r.Valid() && Inv(x) && ValidRun(r, x, steps)
    ensures Inv(Exec(r, x, steps))
    ensures Advances(x.m.cases, Exec(r, x, steps).m.cases)
    decreases steps
  {
    if steps != [] {
      StepKeepsInv(r, x, steps[0]);
      StepIsGood(r, x, steps[0]);
      RunKeepsInv(r, Next(r, x, steps[0]), steps[1..]);
    }
  }

  // ----- what holds over whole runs

  /** The case this step hands to the buyer: the claim and the call of create_task are one block. */
  function ClaimOf(x: World, s: Step): Option<nat>
    requires Enabled(x, s)
  {
    if s.Visit? && IsClaim(x, s.w, s.auth) then Some(x.workers[s.w].i) else None
  }

  /** The cases handed to the buyer in a run, in the order of the calls. */
  ghost function Claims(r: Redactor, x: World, steps: seq<Step>): seq<nat>
    requires ValidRun(r, x, steps)
    decreases steps
  {
    if steps == [] then []
    else
      var later := Claims(r, Next(r, x, steps[0]), steps[1..]);
      match ClaimOf(x, steps[0])
      case None => later
      case Some(i) => [i] + later
  }

  lemma ClaimTakesPending(r: Redactor, x: World, s: Step, i: nat)
    requires Inv(x) && Enabled(x, s) && ClaimOf(x, s) == Some(i)
    ensures i < |x.m.cases| && x.m.cases[i].state == Pending && TerminalBefore(x.m.cases, i)
    ensures Left(Next(r, x, s).m.cases, i)
  {
    assert WorkerOk(x.m.cases, x.workers[s.w]);
    FindIndexOfId(x.m.cases, i);
  }

  predicate Increasing(t: seq<nat>) {
    forall a, b | 0 <= a < b < |t| :: t[a] < t[b]
  }

  /** A run only claims cases that are pending now, each once, in manifest order. */
  predicate GoodClaims(cases: seq<RunCase>, claims: seq<nat>) {
    && Increasing(claims)
    && forall c | c in claims :: c < |cases| && cases[c].state == Pending
  }

  lemma OnlyPendingStaysPending(cases: seq<RunCase>, cases': seq<RunCase>, claims: seq<nat>)
    requires Advances(cases, cases') && GoodClaims(cases', claims)
    ensures GoodClaims(cases, claims)
  {
  }

  /** A claim of case i comes before those of the cases that are still pending after it. */
  lemma ClaimComesFirst(cases: seq<RunCase>, cases': seq<RunCase>, i: nat, later: seq<nat>)
    requires Advances(cases, cases') && InOrder(cases') && GoodClaims(cases', later)
    requires i < |cases| && cases[i].state == Pending && TerminalBefore(cases, i) && Left(cases', i)
    ensures GoodClaims(cases, [i] + later)
  {
    OnlyPendingStaysPending(cases, cases', later);
    forall b | 0 <= b < |later|
      ensures i < later[b]
    {
      assert later[b] in later;
    }
  }

  lemma {:induction false} ClaimsIncrease(r: Redactor, x: World, steps: seq<Step>)
    requires r.Valid() && Inv(x) && ValidRun(r, x, steps)
    ensures GoodClaims(x.m.cases, Claims(r, x, steps))
    decreases steps
  {
    if steps != [] {
      var x' := Next(r, x, steps[0]);
      StepIsGood(r, x, steps[0]);
      StepKeepsInv(r, x, steps[0]);
      ClaimsIncrease(r, x', steps[1..]);
      var later := Claims(r, x', steps[1..]);
      match ClaimOf(x, steps[0])
      case None => OnlyPendingStaysPending(x.m.cases, x'.m.cases, later);
      case Some(i) =>
        ClaimTakesPending(r, x, steps[0], i);
        ClaimComesFirst(x.m.cases, x'.m.cases, i, later);
    }
  }

  /**
   * In every schedule, create_task is called at most once per case and in manifest order, and at
   * the moment of each call every earlier case is terminal.
   */
  lemma CreateTaskOnceInOrder(r: Redactor, x: World, steps: seq<Step>, s: Step, i: nat)
    requires r.Valid() && IsInitial(x) && ValidRun(r, x, steps)
    requires Enabled(Exec(r, x, steps), s) && ClaimOf(Exec(r, x, steps), s) == Some(i)
    ensures TerminalBefore(Exec(r, x, steps).m.cases, i)
    ensures Increasing(Claims(r, x, steps) + [i])
  {
    InitialInv(x);
    RunKeepsInv(r, x, steps);
    ClaimTakesPending(r, Exec(r, x, steps), s, i);
    RunAppend(r, x, steps, s);
    ClaimsAppend(r, x, steps, s, i);
    ClaimsIncrease(r, x, steps + [s]);
  }

  lemma {:induction false} RunAppend(r: Redactor, x: World, steps: seq<Step>, s: Step)
    requires ValidRun(r, x, steps) && Enabled(Exec(r, x, steps), s)
    ensures ValidRun(r, x, steps + [s])
    ensures Exec(r, x, steps + [s]) == Next(r, Exec(r, x, steps), s)
    decreases steps
  {
    var all := steps + [s];
    if steps == [] {
      assert all[1..] == [];
    } else {
      assert all[0] == steps[0] && all[1..] == steps[1..] + [s];
      RunAppend(r, Next(r, x, steps[0]), steps[1..], s);
    }
  }

  lemma {:induction false} ClaimsAppend(r: Redactor, x: World, steps: seq<Step>, s: Step, i: nat)
    requires ValidRun(r, x, steps) && ValidRun(r, x, steps + [s]) && Enabled(Exec(r, x, steps), s)
    requires ClaimOf(Exec(r, x, steps), s) == Some(i)
    ensures Claims(r, x, steps + [s]) == Claims(r, x, steps) + [i]
    decreases steps
  {
    var all := steps + [s];
    if steps == [] {
      assert all[1..] == [];
    } else {
      assert all[0] == steps[0] && all[1..] == steps[1..] + [s];
      ClaimsAppend(r, Next(r, x, steps[0]), steps[1..], s, i);
    }
  }

  /** In every reachable world: one active case at most, replies match states, and `finished` means finished. */
  lemma ReachableWorldsAreConsistent(r: Redactor, x: World, steps: seq<Step>)
    requires r.Valid() && IsInitial(x) && ValidRun(r, x, steps)
    ensures var cases := Exec(r, x, steps).m.cases;
      && InOrder(cases)
      && RepliesMatchState(cases)
      && (Exec(r, x, steps).m.status == RunFinished ==> AllTerminal(cases))
      && StoredEventsDistinct(Exec(r, x, steps).m)
  {
    InitialInv(x);
    RunKeepsInv(r, x, steps);
  }

  /** The exception is real: a case that a callback finished turns `failed` when create_task then fails. */
  lemma FinishedCaseCanTurnFailed(r: Redactor, x: World, e: Envelope, now: Time)
    requires r.Valid() && IsInitial(x) && |x.m.cases| >= 1 && x.m.cases[0].sessionId == None
    requires e.eventType == ScenarioFinished && ValidPayload(e) && PayloadStatus(e) == Some("completed")
    ensures var claim, finish := Visit(0, AuthReady, now), Callback(x.m.cases[0].id, e, now);
      && Enabled(x, claim) && Enabled(Next(r, x, claim), finish)
      && var done := Next(r, Next(r, x, claim), finish);
      && |done.m.cases| > 0 && done.m.cases[0].state == Finished
      && Enabled(done, TaskFailed(0, "down", now))
      && var lost := Next(r, done, TaskFailed(0, "down", now));
      && |lost.m.cases| > 0 && lost.m.cases[0].state == Failed
  {
    InitialInv(x);
    FindIndexOfId(x.m.cases, 0);
    var claim := Visit(0, AuthReady, now);
    var x1 := Next(r, x, claim);
    StepKeepsInv(r, x, claim);
    FindIndexOfId(x1.m.cases, 0);
    var finish := Callback(x1.m.cases[0].id, e, now);
    StepKeepsInv(r, x1, finish);
    FindIndexOfId(Next(r, x1, finish).m.cases, 0);
  }
}
