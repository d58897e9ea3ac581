/** The lock-guarded session store of buyer/app/state.py over the in-memory repository. */
module SessionStores {
  import opened Common
  import opened Sessions

  datatype StoreError = Conflict | NotFound | Refused(reason: OpError)

  /** The active sessions of a process: live, owned by this runtime, and not yet left by their task. */
  function ActiveIn(sessions: map<string, Session>, runtime: set<string>, taskDone: map<string, bool>): set<string> {
    set sid | sid in sessions && IsActiveIn(sessions[sid].status, sid, runtime, taskDone)
  }

  predicate IsActiveIn(status: Status, sid: string, runtime: set<string>, taskDone: map<string, bool>) {
    && !IsTerminal(status)
    && sid in runtime
    && (sid in taskDone ==> !taskDone[sid])
  }

  lemma SubsetSize(a: set<string>, b: set<string>)
    requires a <= b
    ensures |a| <= |b|
  {
    if a != {} {
      var x :| x in a;
      SubsetSize(a - {x}, b - {x});
    }
  }

  /**
   * Sessions are stored under their ids, a session the runtime owns is stored and not terminal, and
   * the runtime's copy of an auth payload is the stored one.
   */
  ghost predicate Consistent(sessions: map<string, Session>, runtime: set<string>, auth: map<string, Auth>) {
    && (forall sid | sid in sessions :: sessions[sid].id == sid)
    && (forall sid | sid in runtime :: sid in sessions && !IsTerminal(sessions[sid].status))
    && (forall sid | sid in auth :: sid in sessions && sessions[sid].auth == Some(auth[sid]))
  }

  lemma AdmitKeepsConsistent(sessions: map<string, Session>, runtime: set<string>, auth: map<string, Auth>, s: Session)
    requires Consistent(sessions, runtime, auth) && s.id !in sessions && !IsTerminal(s.status)
    ensures Consistent(sessions[s.id := s], runtime + {s.id}, if s.auth.Some? then auth[s.id := s.auth.value] else auth)
  {
    assert s.id !in auth;
  }

  lemma AdmittedIsActive(sessions: map<string, Session>, runtime: set<string>, taskDone: map<string, bool>, s: Session)
    requires s.id !in sessions && s.id !in taskDone && !IsTerminal(s.status)
    ensures ActiveIn(sessions[s.id := s], runtime + {s.id}, taskDone) == ActiveIn(sessions, runtime, taskDone) + {s.id}
    ensures |ActiveIn(sessions[s.id := s], runtime + {s.id}, taskDone)| == |ActiveIn(sessions, runtime, taskDone)| + 1
  {
    var before := ActiveIn(sessions, runtime, taskDone);
    assert ActiveIn(sessions[s.id := s], runtime + {s.id}, taskDone) == before + {s.id};
    assert s.id !in before;
  }

  lemma AttachedIsActive(sessions: map<string, Session>, runtime: set<string>, taskDone: map<string, bool>, sid: string)
    ensures var before := ActiveIn(sessions, runtime, taskDone);
            var after := ActiveIn(sessions, runtime + {sid}, taskDone[sid := false]);
      && after == (if sid in sessions && !IsTerminal(sessions[sid].status) then before + {sid} else before)
      && |after| == |before| + if sid in after && sid !in before then 1 else 0
  {
    var before := ActiveIn(sessions, runtime, taskDone);
    var live := sid in sessions && !IsTerminal(sessions[sid].status);
    assert ActiveIn(sessions, runtime + {sid}, taskDone[sid := false]) == if live then before + {sid} else before;
    if sid in before {
      assert before + {sid} == before;
    }
  }

  class SessionStore {
    const maxActiveSessions: int
    const statusTtl: Option<int>
    var sessions: map<string, Session>
    var wakeEvents: map<string, bool>
    var taskDone: map<string, bool>
    var runtimeAuth: map<string, Auth>
    var runtimeSessions: set<string>

    function Active(): set<string>
      reads this
    {
      ActiveIn(sessions, runtimeSessions, taskDone)
    }

    function Limit(): nat {
      if maxActiveSessions < 0 then 0 else maxActiveSessions
    }

    /** What every operation keeps: the capacity bound and the bookkeeping it rests on. */
    ghost predicate Valid()
      reads this
    {
      && |Active()| <= Limit()
      && Consistent(sessions, runtimeSessions, runtimeAuth)
    }

    /** Nothing but this session's entry changed, and it changed as the operation says. */
    twostate predicate Changed(sid: string, op: StoreOp, now: Time)
      reads this
    {
      && sid in old(sessions) && Change(old(sessions[sid]), op, now).Ok?
      && sessions == old(sessions)[sid := Change(old(sessions[sid]), op, now).value]
    }

    /** A process starts with the sessions its repository kept; none of them is its own. */
    constructor (maxActiveSessions: int, statusTtl: Option<int>, kept: map<string, Session>)
      requires forall sid | sid in kept :: kept[sid].id == sid
      ensures Valid() && Active() == {}
      ensures sessions == kept && runtimeSessions == {} && taskDone == map[] && wakeEvents == map[] && runtimeAuth == map[]
      ensures this.maxActiveSessions == maxActiveSessions && this.statusTtl == statusTtl
    {
      this.maxActiveSessions, this.statusTtl := maxActiveSessions, statusTtl;
      sessions, wakeEvents, taskDone, runtimeAuth, runtimeSessions := kept, map[], map[], map[], {};
      new;
      assert Active() == {};
    }

    function Expired(now: Time): set<string>
      reads this
    {
      if statusTtl.None? then {}
      else
        var ttl := if statusTtl.value < 0 then 0 else statusTtl.value;
        set sid | sid in sessions && IsTerminal(sessions[sid].status) && sessions[sid].updatedAt < now - ttl
    }

    /** `_prune_and_list_locked`: forgets expired terminal sessions everywhere. */
    method Prune(now: Time)
      requires Valid()
      modifies this
      ensures Valid() && Active() == old(Active())
      ensures sessions == old(sessions) - old(Expired(now)) && runtimeSessions == old(runtimeSessions)
      ensures taskDone == old(taskDone) - old(Expired(now)) && runtimeAuth == old(runtimeAuth) - old(Expired(now))
      ensures wakeEvents == old(wakeEvents) - old(Expired(now))
    {
      var expired := Expired(now);
      sessions := sessions - expired;
      wakeEvents := wakeEvents - expired;
      taskDone := taskDone - expired;
      runtimeAuth := runtimeAuth - expired;
      runtimeSessions := runtimeSessions - expired;
      assert runtimeSessions == old(runtimeSessions);
      assert Active() == old(Active());
    }

    function Finished(): set<string>
      reads this
    {
      set sid | sid in taskDone && taskDone[sid]
    }

    /** `_drop_finished_runtime_tasks_locked`. */
    method DropFinishedTasks()
      requires Valid()
      modifies this`taskDone, this`runtimeSessions
      ensures Valid() && Active() == old(Active())
      ensures taskDone == old(taskDone) - old(Finished()) && runtimeSessions == old(runtimeSessions) - old(Finished())
    {
      var finished := Finished();
      taskDone := taskDone - finished;
      runtimeSessions := runtimeSessions - finished;
      assert Active() == old(Active());
    }

    /** Registers a new session with the repository and the runtime. */
    method Admit(state: Session)
      requires Valid() && state.id !in sessions && state.id !in taskDone && !IsTerminal(state.status)
      requires |Active()| < maxActiveSessions
      modifies this`sessions, this`runtimeAuth, this`runtimeSessions
      ensures Valid() && Active() == old(Active()) + {state.id}
      ensures sessions == old(sessions)[state.id := state] && runtimeSessions == old(runtimeSessions) + {state.id}
      ensures runtimeAuth == if state.auth.Some? then old(runtimeAuth)[state.id := state.auth.value] else old(runtimeAuth)
    {
      AdmittedIsActive(sessions, runtimeSessions, taskDone, state);
      AdmitKeepsConsistent(sessions, runtimeSessions, runtimeAuth, state);
      var auth := runtimeAuth;
      if state.auth.Some? {
        auth := auth[state.id := state.auth.value];
      }
      sessions, runtimeSessions, runtimeAuth := sessions[state.id := state], runtimeSessions + {state.id}, auth;
    }

    /** Refuses when the runtime is at capacity; otherwise the new session is active. */
    method CreateSession(sid: string, task: Task, auth: Option<Auth>, now: Time) returns (r: Result<Session, StoreError>)
      requires Valid() && sid !in sessions && sid !in taskDone
      modifies this
      ensures Valid()
      ensures r == if |old(Active())| >= maxActiveSessions then Err(Conflict)
                   else Ok(Session(sid, task, auth, Created, now, None, None, None, [], [], None))
      ensures Active() == if r.Ok? then old(Active()) + {sid} else old(Active())
      ensures sessions == if r.Ok? then (old(sessions) - old(Expired(now)))[sid := r.value]
                          else old(sessions) - old(Expired(now))
    {
      Prune(now);
      DropFinishedTasks();
      if |Active()| >= maxActiveSessions {
        return Err(Conflict);
      }
      var state := Session(sid, task, auth, Created, now, None, None, None, [], [], None);
      Admit(state);
      return Ok(state);
    }

    /**
     * Attaches the runner's task, whatever the session. The capacity bound and the bookkeeping survive exactly
     * if the session is stored, not terminal, and active already or within the limit; the service attaches
     * a task to a session it has just created.
     */
    method SetTaskRef(sid: string)
      requires Valid()
      modifies this`taskDone, this`runtimeSessions
      ensures taskDone == old(taskDone)[sid := false] && runtimeSessions == old(runtimeSessions) + {sid}
      ensures Active() == if sid in sessions && !IsTerminal(sessions[sid].status) then old(Active()) + {sid} else old(Active())
      ensures Valid() <==> sid in sessions && !IsTerminal(sessions[sid].status)
                           && (sid in old(Active()) || |old(Active())| < Limit())
    {
      AttachedIsActive(sessions, runtimeSessions, taskDone, sid);
      taskDone := taskDone[sid := false];
      runtimeSessions := runtimeSessions + {sid};
      assert sid in runtimeSessions;
    }

    /** The runner's task ends; its done callback runs some time later. */
    method TaskEnds(sid: string)
      requires Valid() && sid in taskDone
      modifies this`taskDone
      ensures Valid() && Active() == old(Active()) - {sid} && taskDone == old(taskDone)[sid := true]
    {
      taskDone := taskDone[sid := true];
      assert Active() == old(Active()) - {sid};
      SubsetSize(Active(), old(Active()));
    }

    method DoneCallback(sid: string)
      requires Valid()
      modifies this`runtimeSessions
      ensures Valid() && Active() == old(Active()) - {sid} && runtimeSessions == old(runtimeSessions) - {sid}
    {
      runtimeSessions := runtimeSessions - {sid};
      assert Active() == old(Active()) - {sid};
      SubsetSize(Active(), old(Active()));
    }

    /** Loads, changes and writes one session back; used by every operation below. */
    method UpdateSession(sid: string, op: StoreOp, now: Time) returns (r: Result<Session, StoreError>)
      modifies this`sessions
      ensures r == if sid !in old(sessions) then Err(NotFound)
                   else match Change(old(sessions)[sid], op, now) case Ok(t) => Ok(t) case Err(e) => Err(Refused(e))
      ensures sessions == if r.Ok? then old(sessions)[sid := r.value] else old(sessions)
    {
      if sid !in sessions {
        return Err(NotFound);
      }
      var changed := Change(sessions[sid], op, now);
      if changed.Err? {
        return Err(Refused(changed.error));
      }
      sessions := sessions[sid := changed.value];
      return Ok(changed.value);
    }

    method SetStatus(sid: string, status: Status, error: Option<string>, now: Time) returns (r: Result<Session, StoreError>)
      requires Valid()
      modifies this`sessions, this`runtimeSessions
      ensures Valid() && Active() <= old(Active())
      ensures r.Ok? <==> sid in old(sessions)
      ensures r.Ok? ==> Changed(sid, StoreOp.SetStatus(status, error), now) && r.value == sessions[sid]
      ensures r.Err? ==> sessions == old(sessions) && r.error == NotFound
      ensures runtimeSessions == if r.Ok? && IsTerminal(status) then old(runtimeSessions) - {sid} else old(runtimeSessions)
    {
      r := UpdateSession(sid, StoreOp.SetStatus(status, error), now);
      if r.Ok? && IsTerminal(status) {
        runtimeSessions := runtimeSessions - {sid};
      }
      SubsetSize(Active(), old(Active()));
    }

    method SetAuth(sid: string, auth: Option<Auth>, now: Time) returns (r: Result<Session, StoreError>)
      requires Valid()
      modifies this`sessions, this`runtimeAuth
      ensures Valid() && Active() == old(Active())
      ensures r.Ok? <==> sid in old(sessions)
      ensures r.Ok? ==> Changed(sid, StoreOp.SetAuth(auth), now)
      ensures r.Err? ==> sessions == old(sessions) && runtimeAuth == old(runtimeAuth)
      ensures r.Ok? ==> runtimeAuth == if auth.None? then old(runtimeAuth) - {sid} else old(runtimeAuth)[sid := auth.value]
    {
      r := UpdateSession(sid, StoreOp.SetAuth(auth), now);
      if r.Ok? {
        runtimeAuth := if auth.None? then runtimeAuth - {sid} else runtimeAuth[sid := auth.value];
      }
      assert Active() == old(Active());
    }

    method SetWaitingQuestion(sid: string, question: string, replyId: string, now: Time) returns (r: Result<Session, StoreError>)
      requires Valid()
      modifies this`sessions, this`wakeEvents
      ensures Valid() && Active() <= old(Active())
      ensures r.Ok? <==> sid in old(sessions)
      ensures r.Ok? ==> Changed(sid, StoreOp.SetWaitingQuestion(question, replyId), now)
      ensures r.Err? ==> sessions == old(sessions)
      ensures wakeEvents == if r.Ok? then old(wakeEvents)[sid := false] else old(wakeEvents)
    {
      r := UpdateSession(sid, StoreOp.SetWaitingQuestion(question, replyId), now);
      if r.Ok? {
        wakeEvents := wakeEvents[sid := false];
      }
      SubsetSize(Active(), old(Active()));
    }

    /** Accepts a reply only for the open question of a session that this runtime is running. */
    method ApplyReply(sid: string, replyId: string, message: string, now: Time) returns (r: Result<Session, StoreError>)
      requires Valid()
      modifies this`sessions, this`wakeEvents
      ensures Valid() && Active() == old(Active())
      ensures r.Ok? <==> && sid in old(Active())
                         && old(sessions)[sid].status == WaitingUser
                         && old(sessions)[sid].waitingReplyId == Some(replyId)
      ensures r.Ok? ==> Changed(sid, StoreOp.ApplyReply(replyId, message, true), now)
      ensures r.Err? ==> sessions == old(sessions)
      ensures wakeEvents == if r.Ok? then old(wakeEvents)[sid := true] else old(wakeEvents)
    {
      var active := sid in sessions && IsActiveIn(sessions[sid].status, sid, runtimeSessions, taskDone);
      r := UpdateSession(sid, StoreOp.ApplyReply(replyId, message, active), now);
      if r.Ok? {
        wakeEvents := wakeEvents[sid := true];
      }
      assert Active() == old(Active());
    }

    method PopReply(sid: string, now: Time) returns (r: Result<string, StoreError>)
      requires Valid()
      modifies this`sessions
      ensures Valid() && Active() == old(Active())
      ensures r.Ok? <==> sid in old(sessions) && old(sessions)[sid].pendingReply !in {None, Some("")}
      ensures r.Ok? ==> Changed(sid, StoreOp.PopReply, now) && old(sessions)[sid].pendingReply == Some(r.value)
      ensures r.Err? ==> sessions == old(sessions)
    {
      if sid !in sessions {
        return Err(NotFound);
      }
      var pending := sessions[sid].pendingReply;
      var popped := UpdateSession(sid, StoreOp.PopReply, now);
      assert Active() == old(Active());
      if popped.Err? {
        return Err(popped.error);
      }
      return Ok(pending.value);
    }

    method AppendEvent(sid: string, e: Event, now: Time) returns (r: Result<Session, StoreError>)
      requires Valid()
      modifies this`sessions
      ensures Valid() && Active() == old(Active())
      ensures r.Ok? <==> sid in old(sessions)
      ensures r.Ok? ==> Changed(sid, StoreOp.AppendEvent(e), now)
      ensures r.Err? ==> sessions == old(sessions)
    {
      r := UpdateSession(sid, StoreOp.AppendEvent(e), now);
      assert Active() == old(Active());
    }

    method AddAgentMemory(sid: string, role: string, text: string, now: Time) returns (r: Result<Session, StoreError>)
      requires Valid()
      modifies this`sessions
      ensures Valid() && Active() == old(Active())
      ensures r.Ok? <==> sid in old(sessions)
      ensures r.Ok? ==> Changed(sid, StoreOp.AddMemory(role, text), now)
      ensures r.Err? ==> sessions == old(sessions)
    {
      r := UpdateSession(sid, StoreOp.AddMemory(role, text), now);
      assert Active() == old(Active());
    }
  }
}
