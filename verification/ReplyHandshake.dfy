/**
 * The handshake between the session loop, which asks and waits (buyer/app/service.py), and the
 * submissions of replies, which may arrive at any moment (buyer/app/state.py).
 */
module ReplyHandshake {
  import opened Common
  import opened Sessions

  datatype LoopPc =
    | Stepping   // runs an agent step; nothing is asked
    | Asking     // the question is stored, its ask_user event is being delivered
    | Listening  // waits for the wake event
    | Woken      // about to pop the reply
    | Leaving    // raised; the session is not yet marked as over
    | Gone

  /** The session, its wake event, and what was asked, accepted and read so far. */
  datatype World = World(s: Session, wake: bool, pc: LoopPc, owned: bool,
                         asked: seq<string>, accepted: seq<(string, string)>, read: seq<string>)

  datatype Step =
    | Ask(question: string, replyId: string)
    | AskDelivered
    | Wake
    | Pop
    | Submit(replyId: string, message: string)
    | Background(op: StoreOp)
    | Raise
    | Close(status: Status)

  predicate Enabled(w: World, step: Step) {
    match step
    case Ask(_, replyId) => w.pc == Stepping && replyId !in w.asked
    case AskDelivered => w.pc == Asking
    case Wake => w.pc == Listening && w.wake
    case Pop => w.pc == Woken
    case Submit(_, _) => true
    case Background(op) => op.AppendEvent? || op.AddMemory? || op.SetAuth?
    case Raise => w.pc !in {Leaving, Gone}
    case Close(status) => w.pc in {Stepping, Leaving} && IsTerminal(status)
  }

  /** The session runs in this process: its loop still lives and its status is not terminal. */
  predicate IsActive(w: World) {
    w.owned && !IsTerminal(w.s.status)
  }

  function Next(w: World, step: Step, now: Time): World
    requires Enabled(w, step)
  {
    match step
    case Ask(question, replyId) =>
      w.(s := Change(w.s, SetWaitingQuestion(question, replyId), now).value, wake := false, pc := Asking,
         asked := w.asked + [replyId])
    case AskDelivered => w.(pc := Listening)
    case Wake => w.(pc := Woken)
    case Pop =>
      (match Change(w.s, PopReply, now)
       case Ok(t) => w.(s := t, pc := Stepping, read := w.read + [w.s.pendingReply.value])
       case Err(_) => w.(pc := Gone, owned := false))
    case Submit(replyId, message) =>
      (match Change(w.s, ApplyReply(replyId, message, IsActive(w)), now)
       case Ok(t) => w.(s := t, wake := true, accepted := w.accepted + [(replyId, message)])
       case Err(_) => w)
    case Background(op) => (match Change(w.s, op, now) case Ok(t) => w.(s := t) case Err(_) => w)
    case Raise => w.(pc := Leaving)
    case Close(status) => w.(s := Change(w.s, SetStatus(status, None), now).value, pc := Gone, owned := false)
  }

  predicate IsInitial(w: World) {
    && w.s.status == Running && w.s.waitingReplyId == None && w.s.pendingReply == None
    && w.pc == Stepping && w.owned && !w.wake
    && w.asked == [] && w.accepted == [] && w.read == []
  }

  function Messages(accepted: seq<(string, string)>): (r: seq<string>)
    ensures |r| == |accepted|
    ensures forall i | 0 <= i < |accepted| :: r[i] == accepted[i].1
  {
    seq(|accepted|, i requires 0 <= i < |accepted| => accepted[i].1)
  }

  // ----- the invariant

  /** Every question so far was answered and the answer read. */
  predicate Quiet(w: World) {
    && |w.asked| == |w.accepted| == |w.read|
    && w.s.waitingReplyId == None && w.s.pendingReply == None && w.s.status == Running
  }

  /** The last question is open and nothing has woken the loop. */
  predicate Open(w: World) {
    && |w.asked| == |w.accepted| + 1 && |w.accepted| == |w.read|
    && w.s.status == WaitingUser && w.s.waitingReplyId == Some(w.asked[|w.asked| - 1])
    && w.s.pendingReply == None && !w.wake
  }

  /** The last question is answered, the answer is unread and the wake event is set. */
  predicate AnsweredUnread(w: World) {
    && |w.asked| == |w.accepted| && |w.accepted| == |w.read| + 1
    && w.s.status == Running && w.s.waitingReplyId == None
    && w.s.pendingReply == Some(w.accepted[|w.accepted| - 1].1) && w.wake
  }

  /** The i-th accepted reply names the i-th question, and the read texts are the first accepted ones. */
  predicate Faithful(w: World) {
    && NoDuplicates(w.asked)
    && |w.read| <= |w.accepted| <= |w.asked|
    && (forall i | 0 <= i < |w.accepted| :: w.accepted[i].0 == w.asked[i])
    && w.read == Messages(w.accepted)[..|w.read|]
  }

  predicate Inv(w: World) {
    && Faithful(w)
    && match w.pc
       case Stepping => Quiet(w) && w.owned
       case Asking => (Open(w) || AnsweredUnread(w)) && w.owned
       case Listening => (Open(w) || AnsweredUnread(w)) && w.owned
       case Woken => AnsweredUnread(w) && w.owned
       case Leaving => (Quiet(w) || Open(w) || AnsweredUnread(w)) && w.owned
       case Gone => !w.owned
  }

  lemma InitialInv(w: World)
    requires IsInitial(w)
    ensures Inv(w)
  {
  }

  lemma MessagesAppend(accepted: seq<(string, string)>, reply: (string, string))
    ensures Messages(accepted + [reply]) == Messages(accepted) + [reply.1]
  {
  }

  lemma AskKeepsInv(w: World, question: string, replyId: string, now: Time)
    requires Inv(w) && Enabled(w, Ask(question, replyId))
    ensures Inv(Next(w, Ask(question, replyId), now))
  {
    var asked := w.asked + [replyId];
    forall i, j | 0 <= i < j < |asked|
      ensures asked[i] != asked[j]
    {
      assert w.asked[i] in w.asked;
    }
  }

  lemma SubmitKeepsInv(w: World, replyId: string, message: string, now: Time)
    requires Inv(w)
    ensures Inv(Next(w, Submit(replyId, message), now))
  {
    var w' := Next(w, Submit(replyId, message), now);
    MessagesAppend(w.accepted, (replyId, message));
    if w'.accepted != w.accepted {
      assert Open(w) && replyId == w.asked[|w.accepted|];
      assert Faithful(w') && AnsweredUnread(w');
    }
  }

  lemma ReadNext(read: seq<string>, accepted: seq<(string, string)>)
    requires |read| < |accepted| && read == Messages(accepted)[..|read|]
    ensures read + [accepted[|read|].1] == Messages(accepted)[..|read| + 1]
  {
  }

  lemma PopKeepsInv(w: World, now: Time)
    requires Inv(w) && w.pc == Woken
    ensures Inv(Next(w, Pop, now))
  {
    var w' := Next(w, Pop, now);
    if w'.pc == Stepping {
      ReadNext(w.read, w.accepted);
      assert Faithful(w') && Quiet(w');
    }
  }

  /** The invariant looks at no more of the session than its status and its reply fields. */
  predicate SameReplyState(s: Session, t: Session) {
    t.status == s.status && t.waitingReplyId == s.waitingReplyId && t.pendingReply == s.pendingReply
  }

  lemma SameReplyStateKeepsInv(w: World, t: Session)
    requires Inv(w) && SameReplyState(w.s, t)
    ensures Inv(w.(s := t))
  {
    var w' := w.(s := t);
    assert Faithful(w');
    assert Quiet(w') == Quiet(w) && Open(w') == Open(w) && AnsweredUnread(w') == AnsweredUnread(w);
  }

  lemma BackgroundKeepsInv(w: World, op: StoreOp, now: Time)
    requires Inv(w) && Enabled(w, Background(op))
    ensures Inv(Next(w, Background(op), now))
  {
    SameReplyStateKeepsInv(w, Change(w.s, op, now).value);
  }

  lemma StepKeepsInv(w: World, step: Step, now: Time)
    requires Inv(w) && Enabled(w, step)
    ensures Inv(Next(w, step, now))
  {
    match step
    case Ask(question, replyId) => AskKeepsInv(w, question, replyId, now);
    case Submit(replyId, message) => SubmitKeepsInv(w, replyId, message, now);
    case Pop => PopKeepsInv(w, now);
    case Background(op) => BackgroundKeepsInv(w, op, now);
    case _ =>
  }

  ghost predicate ValidRun(w: World, steps: seq<(Step, Time)>)
    decreases steps
  {
    steps == [] || (Enabled(w, steps[0].0) && ValidRun(Next(w, steps[0].0, steps[0].1), steps[1..]))
  }

  ghost function Exec(w: World, steps: seq<(Step, Time)>): World
    requires ValidRun(w, steps)
    decreases steps
  {
    if steps == [] then w else Exec(Next(w, steps[0].0, steps[0].1), steps[1..])
  }

  lemma {:induction false} RunKeepsInv(w: World, steps: seq<(Step, Time)>)
    requires Inv(w) && ValidRun(w, steps)
    ensures Inv(Exec(w, steps))
    decreases steps
  {
    if steps != [] {
      StepKeepsInv(w, steps[0].0, steps[0].1);
      RunKeepsInv(Next(w, steps[0].0, steps[0].1), steps[1..]);
    }
  }

  // ----- what every interleaving guarantees

  /**
   * Each question gets at most one accepted reply, under its own id; the loop reads the accepted
   * texts in order, none twice, and has read them all whenever it goes on.
   */
  lemma EveryReplyReadOnce(w: World, steps: seq<(Step, Time)>)
    requires IsInitial(w) && ValidRun(w, steps)
    ensures var x := Exec(w, steps);
      && NoDuplicates(x.asked)
      && |x.accepted| <= |x.asked|
      && (forall i | 0 <= i < |x.accepted| :: x.accepted[i].0 == x.asked[i])
      && x.read <= Messages(x.accepted)
      && (x.pc == Stepping ==> x.read == Messages(x.accepted) && |x.read| == |x.asked|)
  {
    InitialInv(w);
    RunKeepsInv(w, steps);
    var x := Exec(w, steps);
    assert Messages(x.accepted)[..|x.accepted|] == Messages(x.accepted);
  }

  /**
   * While the loop lives, a submission is accepted exactly if it names the last question and that
   * question has no reply yet: stale and second submissions are rejected and change nothing.
   */
  lemma OnlyOpenQuestionAccepts(w: World, steps: seq<(Step, Time)>, replyId: string, message: string, now: Time)
    requires IsInitial(w) && ValidRun(w, steps)
    requires Exec(w, steps).pc != Gone
    ensures var x := Exec(w, steps);
      var x' := Next(x, Submit(replyId, message), now);
      if |x.asked| == |x.accepted| + 1 && replyId == x.asked[|x.asked| - 1]
      then x'.accepted == x.accepted + [(replyId, message)]
      else x' == x
  {
    InitialInv(w);
    RunKeepsInv(w, steps);
  }

  /** A reply wakes the loop whether it lands before or after the loop starts to wait. */
  lemma AcceptedReplyWakes(w: World, steps: seq<(Step, Time)>)
    requires IsInitial(w) && ValidRun(w, steps)
    requires Exec(w, steps).pc == Listening
    ensures var x := Exec(w, steps);
      Enabled(x, Wake) <==> |x.accepted| == |x.asked|
  {
    InitialInv(w);
    RunKeepsInv(w, steps);
  }

  /** The woken loop gets the reply, unless the reply was empty; the API admits no empty reply. */
  lemma PopReturnsTheReply(w: World, steps: seq<(Step, Time)>, now: Time)
    requires IsInitial(w) && ValidRun(w, steps)
    requires Exec(w, steps).pc == Woken
    ensures var x := Exec(w, steps);
      && |x.accepted| > 0 && |x.asked| > 0
      && var last := x.accepted[|x.accepted| - 1];
      && last.0 == x.asked[|x.asked| - 1]
      && (Next(x, Pop, now).read == x.read + [last.1] <==> last.1 != "")
      && (Next(x, Pop, now).pc == Stepping <==> last.1 != "")
  {
    InitialInv(w);
    RunKeepsInv(w, steps);
  }
}
