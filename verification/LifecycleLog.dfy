/**
 The log determines the state: folding a claim's audit entries in order rebuilds the
 state of its task and the attempts it has used.
*/
module LifecycleLog {
  import opened Basics
  import opened JsonText
  import opened AuditChain
  import opened AuditProofs
  import opened Threshold
  import opened Lifecycle
  import opened LifecycleInvariants

  // ----- reading a log ---------------------------------------------------------------------

  datatype Kind = KClaimed | KStarted | KTimeout | KHandoff | KAttempt | KRecheck
                | KCompleted | KVoided | KAborted | KOther

  function KindOf(name: string): Kind {
    if name == "task_claimed" then KClaimed
    else if name == "execution_started" then KStarted
    else if name == "heartbeat_timeout" then KTimeout
    else if name == "supervision_handoff" then KHandoff
    else if name == "attestation_attempt" then KAttempt
    else if name == "recheck_requested" then KRecheck
    else if name == "task_completed" then KCompleted
    else if name == "task_voided" then KVoided
    else if name == "task_aborted" then KAborted
    else KOther
  }

  /** What a reader of the log knows of the task. */
  datatype View = View(state: TaskState, attempts: nat)

  predicate HandsTo(payload: Dict, s: TaskState) {
    "new_state" in payload && payload["new_state"] == JString(StateName(s))
  }

  function Next(v: View, name: string, payload: Dict): View {
    match KindOf(name)
    case KClaimed => v.(state := Claimed)
    case KStarted => v.(state := Executing)
    case KTimeout => v.(state := Supervising)
    case KHandoff =>
      if HandsTo(payload, Executing) then v.(state := Executing)
      else if HandsTo(payload, Supervising) then v.(state := Supervising)
      else v
    case KAttempt => View(Attesting, v.attempts + 1)
    case KRecheck => v.(state := Rechecking)
    case KCompleted => v.(state := Completed)
    case KVoided => v.(state := Voided)
    case KAborted => v.(state := Aborted)
    case KOther => v
  }

  /** How the coordinator's own entries are read. */
  lemma NextOf(v: View, payload: Dict)
    ensures Next(v, "execution_started", payload) == v.(state := Executing)
    ensures Next(v, "heartbeat_timeout", payload) == v.(state := Supervising)
    ensures Next(v, "attestation_attempt", payload) == View(Attesting, v.attempts + 1)
    ensures Next(v, "recheck_requested", payload) == v.(state := Rechecking)
    ensures Next(v, "task_completed", payload) == v.(state := Completed)
    ensures Next(v, "task_voided", payload) == v.(state := Voided)
    ensures Next(v, "task_aborted", payload) == v.(state := Aborted)
    ensures KindOf("attestation_attempt") == KAttempt && KindOf("recheck_requested") == KRecheck
    ensures KindOf("execution_started") == KStarted && KindOf("heartbeat_timeout") == KTimeout
    ensures KindOf("supervision_handoff") == KHandoff && KindOf("task_aborted") == KAborted
    ensures KindOf("task_completed") == KCompleted && KindOf("task_voided") == KVoided
  {
  }

  lemma NextHandoff(v: View, c: string, reason: string, urgency: string, s: TaskState)
    requires s == Executing || s == Supervising
    ensures Next(v, "supervision_handoff", HandoffPayload(c, reason, urgency, s)) == v.(state := s)
  {
    StateNamesDiffer();
    assert HandsTo(HandoffPayload(c, reason, urgency, s), s);
  }

  lemma StateNamesDiffer()
    ensures StateName(Executing) != StateName(Supervising)
  {
  }

  function Replay(log: seq<Row>): View {
    if log == [] then View(Posted, 0)
    else
      var e := log[|log| - 1].entry;
      Next(Replay(log[..|log| - 1]), e.eventType, e.payload)
  }

  predicate IsAttempt(r: Row) { KindOf(r.entry.eventType) == KAttempt }

  predicate IsTerminal(r: Row) { KindOf(r.entry.eventType) in {KCompleted, KVoided, KAborted} }

  function Attempts(log: seq<Row>): nat {
    if log == [] then 0
    else Attempts(log[..|log| - 1]) + (if IsAttempt(log[|log| - 1]) then 1 else 0)
  }

  predicate SaysAttempt(payload: Dict, n: nat) {
    "attempt_number" in payload && payload["attempt_number"] == JInt(n)
  }

  /** Attempt entries are numbered 1, 2, 3, ... with no gap. */
  ghost predicate Numbered(log: seq<Row>) {
    forall i | 0 <= i < |log| && IsAttempt(log[i]) :: SaysAttempt(log[i].entry.payload, Attempts(log[..i + 1]))
  }

  /** A terminal entry can only be the last. */
  ghost predicate TerminalLast(log: seq<Row>) {
    forall i | 0 <= i < |log| - 1 :: !IsTerminal(log[i])
  }

  /** What a claim's log says of its task. */
  ghost predicate LogOk(log: seq<Row>, task: Task) {
    && Replay(log) == View(task.state, task.attemptsUsed)
    && Attempts(log) == task.attemptsUsed
    && Numbered(log) && TerminalLast(log)
  }

  // ----- one entry ----------------------------------------------------------------------------

  lemma AppendEntry(log: seq<Row>, r: Row, task: Task, task': Task)
    requires LogOk(log, task) && !Terminal(task.state)
    requires Next(View(task.state, task.attemptsUsed), r.entry.eventType, r.entry.payload)
          == View(task'.state, task'.attemptsUsed)
    requires IsAttempt(r) ==> SaysAttempt(r.entry.payload, task'.attemptsUsed)
    ensures LogOk(log + [r], task')
  {
    var all := log + [r];
    assert all[..|log|] == log;
    assert log != [] ==> !IsTerminal(log[|log| - 1]);
    hide Replay, Next, KindOf;
    forall i | 0 <= i < |all| && IsAttempt(all[i]) ensures SaysAttempt(all[i].entry.payload, Attempts(all[..i + 1])) {
      if i < |log| {
        assert all[..i + 1] == log[..i + 1];
      } else {
        assert all[..i + 1] == all;
        assert Attempts(all) == Attempts(log) + 1;
        AttemptAdds(task, r, task');
      }
    }
    assert Attempts(all) == task'.attemptsUsed by {
      AttemptAdds(task, r, task');
    }
  }

  lemma AttemptAdds(task: Task, r: Row, task': Task)
    requires Next(View(task.state, task.attemptsUsed), r.entry.eventType, r.entry.payload)
          == View(task'.state, task'.attemptsUsed)
    ensures task'.attemptsUsed == task.attemptsUsed + (if IsAttempt(r) then 1 else 0)
  {
  }

  lemma {:induction false} ClaimRowsAdded(rows: seq<Row>, added: seq<Row>, c: string, d: string)
    requires forall i | 0 <= i < |added| :: Names(added[i], c)
    ensures ClaimRows(rows + added, d) == ClaimRows(rows, d) + (if d == c then added else [])
  {
    if added == [] {
      assert rows + added == rows;
    } else {
      var init, r := added[..|added| - 1], added[|added| - 1];
      ClaimRowsAdded(rows, init, c, d);
      assert rows + added == (rows + init) + [r];
      ClaimRowsAppend(rows + init, r, d);
    }
  }

  // ----- the log of every claim ---------------------------------------------------------------

  ghost predicate LogsOk(w: World) {
    forall c | c in w.claims && TaskOf(w, c).Some? :: LogOk(ClaimRows(w.rows, c), TaskOf(w, c).value)
  }

  lemma MovedLogs(w: World, w': World, c: string, task: Task, added: seq<Row>)
    requires Linked(w) && LogsOk(w) && Moved(w, w', c, task, added)
    requires LogOk(ClaimRows(w.rows, c) + added, task)
    ensures LogsOk(w')
  {
    hide LogOk, Linked, TaskOf, ClaimRows;
    forall d | d in w'.claims && TaskOf(w', d).Some? ensures LogOk(ClaimRows(w'.rows, d), TaskOf(w', d).value) {
      MovedTask(w, w', c, task, added, d);
      ClaimRowsAdded(w.rows, added, c, d);
      assert ClaimRows(w.rows, d) + [] == ClaimRows(w.rows, d);
    }
  }

  /** Advancing a claim keeps every log telling its task's state, when the entry written
      takes the reader where the task went. */
  lemma AdvanceLogs(env: Env, w: World, c: string, task: Task, task': Task,
                    eventType: string, actor: string, payload: Dict)
    requires Linked(w) && LogsOk(w) && c in w.claims && TaskOf(w, c) == Some(task)
    requires !Terminal(task.state) && task'.state != Posted
    requires Next(View(task.state, task.attemptsUsed), eventType, payload) == View(task'.state, task'.attemptsUsed)
    requires KindOf(eventType) == KAttempt ==> SaysAttempt(payload, task'.attemptsUsed)
    ensures var w' := Advance(env, w, c, task', eventType, actor, payload);
      Linked(w') && LogsOk(w') && c in w'.claims && TaskOf(w', c) == Some(task') && w'.claims == w.claims
  {
    AdvanceMoves(env, w, c, task', eventType, actor, payload);
    hide Advance, Next, KindOf, LogOk;
    var w' := Advance(env, w, c, task', eventType, actor, payload);
    var r := w'.rows[|w'.rows| - 1];
    MovedLinked(w, w', c, task', [r]);
    MovedTask(w, w', c, task', [r], c);
    AppendEntry(ClaimRows(w.rows, c), r, task, task');
    MovedLogs(w, w', c, task', [r]);
  }

  // ----- each call ----------------------------------------------------------------------------

  /** An event type (and payload) a worker may log without misleading a reader: it is not one
      of the coordinator's names for leaving EXECUTING. */
  predicate Harmless(eventType: string, payload: Dict) {
    match KindOf(eventType)
    case KStarted => true
    case KOther => true
    case KHandoff => !HandsTo(payload, Supervising)
    case _ => false
  }

  /** The call logs no misleading event: a refused event logs nothing. */
  ghost predicate HarmlessCall(env: Env, w: World, call: Call) {
    call.ExecuteEvent? && Step(env, w, call).1 == Accepted ==> Harmless(call.eventType, call.payload)
  }

  /** Every event accepted in the run is harmless. */
  ghost predicate HarmlessRun(env: Env, calls: seq<Call>) {
    forall i: nat | i < |calls| :: HarmlessCall(env, Run(env, calls[..i]), calls[i])
  }

  /** Exactly when an accepted event keeps the log telling the state. */
  lemma EventExactly(env: Env, w: World, c: string, eventType: string, time: Option<int>, payload: Dict, sigOk: bool)
    requires Inv(env, w) && LogsOk(w)
    requires EventStep(env, w, c, eventType, time, payload, sigOk).1 == Accepted
    ensures LogsOk(EventStep(env, w, c, eventType, time, payload, sigOk).0) <==> Harmless(eventType, payload)
  {
    hide LogsOk, Linked, Advance, TasksOk, CompletedBacked;
    var task, claim := TaskOf(w, c).value, w.claims[c];
    var w1 := if eventType == "heartbeat"
              then w.(claims := w.claims[c := claim.(lastHeartbeat := time)]) else w;
    assert EventStep(env, w, c, eventType, time, payload, sigOk).0
        == Advance(env, w1, c, task, eventType, claim.workerId, payload);
    HeartbeatKeeps(w, w1, c);
    EventRead(env, w1, c, task, eventType, claim.workerId, payload);
  }

  lemma EventRead(env: Env, w: World, c: string, task: Task, eventType: string, actor: string, payload: Dict)
    requires Linked(w) && LogsOk(w) && c in w.claims && TaskOf(w, c) == Some(task) && task.state == Executing
    ensures LogsOk(Advance(env, w, c, task, eventType, actor, payload)) <==> Harmless(eventType, payload)
  {
    if Harmless(eventType, payload) {
      StateNamesDiffer();
      hide LogsOk, Linked, Advance, TaskOf;
      AdvanceLogs(env, w, c, task, task, eventType, actor, payload);
    } else {
      MisleadingEvent(env, w, c, task, eventType, actor, payload);
    }
  }

  lemma HeartbeatKeeps(w: World, w1: World, c: string)
    requires Linked(w) && LogsOk(w) && SameClaims(w.claims, w1.claims) && w1 == w.(claims := w1.claims)
    ensures Linked(w1) && LogsOk(w1) && forall d | d in w.claims :: TaskOf(w1, d) == TaskOf(w, d)
  {
    ClaimedTasksSame(w.tasks, w.claims, w1.claims);
    hide ClaimedTasks, LogOk, ClaimRows;
    assert RowsNamed(w1.rows, w1.claims) && ClaimsFit(w1.tasks, w1.claims) && OneClaimEach(w1.claims);
    hide RowsNamed, ClaimsFit, OneClaimEach;
    assert forall d | d in w.claims :: TaskOf(w1, d) == TaskOf(w, d);
  }

  lemma ClaimedTasksSame(ts: map<string, Task>, a: map<string, Claim>, b: map<string, Claim>)
    requires ClaimedTasks(ts, a) && SameClaims(a, b)
    ensures ClaimedTasks(ts, b)
  {
    forall t | t in ts && ts[t].state != Posted ensures exists d | d in b :: b[d].taskId == t {
      var d :| d in a && a[d].taskId == t;
      assert b[d].taskId == t;
    }
  }

  lemma MisleadingEvent(env: Env, w: World, c: string, task: Task, eventType: string, actor: string, payload: Dict)
    requires Linked(w) && LogsOk(w) && c in w.claims && TaskOf(w, c) == Some(task) && task.state == Executing
    requires !Harmless(eventType, payload)
    ensures !LogsOk(Advance(env, w, c, task, eventType, actor, payload))
  {
    AdvanceMoves(env, w, c, task, eventType, actor, payload);
    StateNamesDiffer();
    var w' := Advance(env, w, c, task, eventType, actor, payload);
    var r := w'.rows[|w'.rows| - 1];
    var log := ClaimRows(w.rows, c);
    assert Next(View(task.state, task.attemptsUsed), eventType, payload) != View(task.state, task.attemptsUsed);
    hide Advance, Next, KindOf;
    MovedTask(w, w', c, task, [r], c);
    ClaimRowsAdded(w.rows, [r], c, c);
    assert (log + [r])[..|log|] == log;
    assert Replay(log + [r]) != Replay(log);
    assert !LogOk(ClaimRows(w'.rows, c), task);
  }

  lemma AttemptLogs(env: Env, w: World, c: string, task: Task, d: Decision)
    requires Linked(w) && LogsOk(w) && c in w.claims && TaskOf(w, c) == Some(task) && CanAttest(task.state)
    ensures var n := task.attemptsUsed + 1;
      var task' := task.(state := Attesting, attemptsUsed := n);
      var w1 := Advance(env, w, c, task', "attestation_attempt", w.claims[c].workerId, AttemptPayload(c, n, d));
      Linked(w1) && LogsOk(w1) && c in w1.claims && TaskOf(w1, c) == Some(task') && w1.claims == w.claims
  {
    hide Advance, Linked, LogsOk, TaskOf, Next, KindOf;
    var n := task.attemptsUsed + 1;
    NextOf(View(task.state, task.attemptsUsed), AttemptPayload(c, n, d));
    AdvanceLogs(env, w, c, task, task.(state := Attesting, attemptsUsed := n), "attestation_attempt",
                w.claims[c].workerId, AttemptPayload(c, n, d));
  }

  lemma VerdictLogs(env: Env, w: World, c: string, task: Task, s: TaskState, name: string, payload: Dict)
    requires Linked(w) && LogsOk(w) && c in w.claims && TaskOf(w, c) == Some(task) && task.state == Attesting
    requires s in {Completed, Rechecking, Voided}
    requires name == match s
                     case Completed => "task_completed" case Rechecking => "recheck_requested" case _ => "task_voided"
    ensures LogsOk(Advance(env, w, c, task.(state := s), name, COORDINATOR, payload))
  {
    hide Advance, Linked, LogsOk, TaskOf, Next, KindOf;
    NextOf(View(task.state, task.attemptsUsed), payload);
    AdvanceLogs(env, w, c, task, task.(state := s), name, COORDINATOR, payload);
  }

  lemma RouteLogs(env: Env, w: World, c: string, task: Task, d: Decision)
    requires Linked(w) && LogsOk(w) && c in w.claims && TaskOf(w, c) == Some(task) && CanAttest(task.state)
    ensures LogsOk(Route(env, w, c, task, d))
  {
    hide Advance, Linked, LogsOk, TaskOf;
    AttemptLogs(env, w, c, task, d);
    var claim, n := w.claims[c], task.attemptsUsed + 1;
    var task' := task.(state := Attesting, attemptsUsed := n);
    var w1 := Advance(env, w, c, task', "attestation_attempt", claim.workerId, AttemptPayload(c, n, d));
    var ref, remaining := task.descriptor.accountingRef, Remaining(task, n);
    match d
    case Review =>
    case Pass => VerdictLogs(env, w1, c, task', Completed, "task_completed", CompletedPayload(c, claim.taskId, ref));
    case Fail =>
      if remaining > 0 {
        VerdictLogs(env, w1, c, task', Rechecking, "recheck_requested",
                    RecheckPayload(c, n, remaining, env.reasons(|w1.rows|)));
      } else {
        VerdictLogs(env, w1, c, task', Voided, "task_voided",
                    VoidedPayload(c, claim.taskId, n, env.reasons(|w1.rows|), ref));
      }
  }

  lemma EvidenceLogs(w: World, stored: seq<EvidenceRow>)
    requires Linked(w) && LogsOk(w)
    ensures var w' := w.(evidence := w.evidence + stored);
      Linked(w') && LogsOk(w') && forall c :: TaskOf(w', c) == TaskOf(w, c)
  {
    hide LogOk, ClaimRows;
    var w' := w.(evidence := w.evidence + stored);
    assert forall c :: TaskOf(w', c) == TaskOf(w, c);
  }

  lemma AttestLogs(env: Env, w: World, c: string, items: seq<Submission>)
    requires Linked(w) && LogsOk(w)
    ensures LogsOk(AttestStep(env, w, c, items).0)
  {
    hide LogsOk, Linked, Route, Examine, Evaluate;
    if TaskOf(w, c).Some? && CanAttest(TaskOf(w, c).value.state) {
      var task, exam := TaskOf(w, c).value, Examine(c, w.claims[c].workerId, items);
      EvidenceLogs(w, exam.stored);
      if !exam.failed {
        RouteLogs(env, w.(evidence := w.evidence + exam.stored), c, task, Evaluate(RequirementOf(task), exam.verdicts));
      }
    }
  }

  lemma PostLogs(env: Env, w: World, taskId: string, d: Descriptor, expiry: Option<int>)
    requires Linked(w) && LogsOk(w)
    ensures LogsOk(PostStep(env, w, taskId, d, expiry).0)
  {
    if PostError(env, d).None? && expiry.Some? && taskId !in w.tasks {
      var w' := PostStep(env, w, taskId, d, expiry).0;
      var e := Entry("task_posted", d.postedBy, PostedPayload(taskId, d), None, Some(taskId), env.clock(|w.rows|));
      var r := MakeRow(env.crypto, w.rows, e);
      assert w' == World(w.workers, w.tasks[taskId := Task(d, expiry.value, Posted, 0)], w.claims, w.evidence,
                         w.rows + [r]);
      hide PostStep, MakeRow, LogOk, PostedPayload;
      PostLinked(w, w', taskId, Task(d, expiry.value, Posted, 0), r);
      forall c | c in w'.claims && TaskOf(w', c).Some? ensures LogOk(ClaimRows(w'.rows, c), TaskOf(w', c).value) {
        ClaimRowsAppend(w.rows, r, c);
        assert ClaimRows(w.rows, c) + [] == ClaimRows(w.rows, c);
      }
    }
  }

  /** The table has no row of a claim nobody made. */
  lemma {:induction false} NoRowsOfStrangers(rows: seq<Row>, claims: map<string, Claim>, c: string)
    requires RowsNamed(rows, claims) && c !in claims
    ensures ClaimRows(rows, c) == []
  {
    if rows != [] {
      var init := rows[..|rows| - 1];
      assert RowsNamed(init, claims) by {
        assert forall i | 0 <= i < |init| :: init[i] == rows[i];
      }
      NoRowsOfStrangers(init, claims, c);
    }
  }

  lemma ClaimLogs(env: Env, w: World, taskId: string, worker: string, bid: Option<string>,
                  etaOk: bool, acceptance: Acceptance, newClaim: string, now: int)
    requires Inv(env, w) && LogsOk(w)
    ensures LogsOk(ClaimStep(env, w, taskId, worker, bid, etaOk, acceptance, newClaim, now).0)
  {
    hide ClaimStep, ClaimError, Advance;
    var w' := ClaimStep(env, w, taskId, worker, bid, etaOk, acceptance, newClaim, now).0;
    if ClaimError(w, taskId, worker, etaOk, acceptance, newClaim, now).None? {
      ClaimShape(env, w, taskId, worker, bid, etaOk, acceptance, newClaim, now);
      var task := w.tasks[taskId].(state := Claimed);
      assert TaskOk(w.tasks[taskId]);
      ClaimLinked(w, w', taskId, newClaim, Claim(taskId, worker, bid, true, Some(now)), task);
      NoRowsOfStrangers(w.rows, w.claims, newClaim);
      hide Inv, TaskOk, Linked;
      AddedLogs(w, w', newClaim, task, w'.rows[|w'.rows| - 1]);
    } else {
      ClaimRefused(env, w, taskId, worker, bid, etaOk, acceptance, newClaim, now);
    }
  }

  lemma ClaimRefused(env: Env, w: World, taskId: string, worker: string, bid: Option<string>,
                     etaOk: bool, acceptance: Acceptance, newClaim: string, now: int)
    requires ClaimError(w, taskId, worker, etaOk, acceptance, newClaim, now).Some?
    ensures ClaimStep(env, w, taskId, worker, bid, etaOk, acceptance, newClaim, now).0 == w
  {
  }

  /** A new claim with its first entry. */
  lemma AddedLogs(w: World, w': World, newClaim: string, task: Task, r: Row)
    requires LogsOk(w) && w'.rows == w.rows + [r] && Names(r, newClaim) && ClaimRows(w.rows, newClaim) == []
    requires r.entry.eventType == "task_claimed" && task.state == Claimed && task.attemptsUsed == 0
    requires w'.claims.Keys == w.claims.Keys + {newClaim} && TaskOf(w', newClaim) == Some(task)
    requires forall c | c in w.claims && c != newClaim :: TaskOf(w', c) == TaskOf(w, c)
    ensures LogsOk(w')
  {
    hide LogOk, TaskOf, ClaimRows;
    FirstEntry(r, task);
    forall c | c in w'.claims && TaskOf(w', c).Some? ensures LogOk(ClaimRows(w'.rows, c), TaskOf(w', c).value) {
      ClaimRowsAppend(w.rows, r, c);
      assert ClaimRows(w.rows, c) + [] == ClaimRows(w.rows, c);
    }
  }

  lemma FirstEntry(r: Row, task: Task)
    requires r.entry.eventType == "task_claimed" && task.state == Claimed && task.attemptsUsed == 0
    ensures LogOk([] + [r], task)
  {
    AppendEntry([], r, task.(state := Posted), task);
  }

  lemma {:induction false} SweepLogs(env: Env, w: World, order: seq<string>, n: nat, now: int)
    requires Inv(env, w) && LogsOk(w) && ListsExecuting(w, order) && n <= |order|
    ensures LogsOk(SweepStep(env, w, order[..n], now).0)
  {
    if n == 0 {
      SweepNone(env, w, order, now);
    } else {
      SweepLogs(env, w, order, n - 1, now);
      SweepPrefixKeeps(env, w, order, n - 1, now);
      var c, w0 := order[n - 1], SweepStep(env, w, order[..n - 1], now).0;
      assert c in order && TaskOf(w0, c) == TaskOf(w, c);
      SweepUnfold(env, w, order, n, now);
      hide SweepStep, LogsOk, TaskOf, ListsExecuting;
      SweepOneLogs(env, w0, c, now);
    }
  }

  lemma SweepOneLogs(env: Env, w: World, c: string, now: int)
    requires Linked(w) && LogsOk(w) && TaskOf(w, c).Some? && TaskOf(w, c).value.state == Executing
    ensures LogsOk(SweepOne(env, w, c, now))
  {
    hide Linked, LogsOk, Advance, KindOf, Next;
    if Stale(w.claims[c], now) {
      var task, payload := TaskOf(w, c).value, TimeoutPayload(c, w.claims[c].lastHeartbeat.value);
      NextOf(View(task.state, task.attemptsUsed), payload);
      AdvanceLogs(env, w, c, task, task.(state := Supervising), "heartbeat_timeout", COORDINATOR, payload);
    }
  }

  lemma StepLogs(env: Env, w: World, call: Call)
    requires Inv(env, w) && LogsOk(w) && HarmlessCall(env, w, call)
    ensures LogsOk(Step(env, w, call).0)
  {
    match call
    case UpsertWorker(worker, principal) =>
      var w' := Step(env, w, call).0;
      assert forall c | c in w.claims :: TaskOf(w', c) == TaskOf(w, c);
    case Post(taskId, d, expiry) => PostLogs(env, w, taskId, d, expiry);
    case ClaimTask(taskId, worker, bid, etaOk, acceptance, newClaim, now) =>
      ClaimLogs(env, w, taskId, worker, bid, etaOk, acceptance, newClaim, now);
    case ExecuteOpen(c, session) => OpenLogs(env, w, c, session);
    case ExecuteEvent(c, eventType, time, payload, sigOk) =>
      if EventStep(env, w, c, eventType, time, payload, sigOk).1 == Accepted {
        EventExactly(env, w, c, eventType, time, payload, sigOk);
      } else {
        RefusedEvent(env, w, c, eventType, time, payload, sigOk);
      }
    case CheckHeartbeats(order, now) =>
      if ListsExecuting(w, order) {
        SweepLogs(env, w, order, |order|, now);
        assert order[..|order|] == order;
      }
    case Attest(c, items) => AttestLogs(env, w, c, items);
    case Supervise(c, reason, urgency) => SuperviseLogs(env, w, c, reason, urgency);
    case Abort(c, reason, snapshot) => AbortLogs(env, w, c, reason, snapshot);
  }

  lemma RefusedEvent(env: Env, w: World, c: string, eventType: string, time: Option<int>, payload: Dict, sigOk: bool)
    requires EventStep(env, w, c, eventType, time, payload, sigOk).1 != Accepted
    ensures EventStep(env, w, c, eventType, time, payload, sigOk).0 == w
  {
  }

  lemma OpenLogs(env: Env, w: World, c: string, session: string)
    requires Linked(w) && LogsOk(w)
    ensures LogsOk(OpenStep(env, w, c, session).0)
  {
    hide Linked, LogsOk, Advance, KindOf, Next;
    if OpenStep(env, w, c, session).1 == Accepted {
      var task := TaskOf(w, c).value;
      NextOf(View(task.state, task.attemptsUsed), StartedPayload(c, session));
      AdvanceLogs(env, w, c, task, task.(state := Executing), "execution_started",
                  w.claims[c].workerId, StartedPayload(c, session));
    }
  }

  lemma SuperviseLogs(env: Env, w: World, c: string, reason: string, urgency: string)
    requires Linked(w) && LogsOk(w)
    ensures LogsOk(SuperviseStep(env, w, c, reason, urgency).0)
  {
    hide Linked, LogsOk, Advance, KindOf, Next;
    if SuperviseStep(env, w, c, reason, urgency).1 == Accepted {
      var task := TaskOf(w, c).value;
      var s := if task.state == Executing then Supervising else Executing;
      NextOf(View(task.state, task.attemptsUsed), map[]);
      NextHandoff(View(task.state, task.attemptsUsed), c, reason, urgency, s);
      AdvanceLogs(env, w, c, task, task.(state := s), "supervision_handoff", w.claims[c].workerId,
                  HandoffPayload(c, reason, urgency, s));
    }
  }

  lemma AbortLogs(env: Env, w: World, c: string, reason: string, snapshot: Dict)
    requires Linked(w) && LogsOk(w)
    ensures LogsOk(AbortStep(env, w, c, reason, snapshot).0)
  {
    hide Linked, LogsOk, Advance, KindOf, Next;
    if AbortStep(env, w, c, reason, snapshot).1 == Accepted {
      var task := TaskOf(w, c).value;
      var payload := AbortedPayload(c, w.claims[c].taskId, reason, snapshot, task.descriptor.accountingRef);
      NextOf(View(task.state, task.attemptsUsed), payload);
      AdvanceLogs(env, w, c, task, task.(state := Aborted), "task_aborted", w.claims[c].workerId, payload);
    }
  }

  // ----- every run ------------------------------------------------------------------------------

  lemma HarmlessPrefix(env: Env, calls: seq<Call>, n: nat)
    requires HarmlessRun(env, calls) && n <= |calls|
    ensures HarmlessRun(env, calls[..n])
  {
    hide Run, HarmlessCall;
    forall i: nat | i < n ensures HarmlessCall(env, Run(env, calls[..n][..i]), calls[..n][i]) {
      assert calls[..n][..i] == calls[..i];
    }
  }

  /** Over every run whose accepted worker events are harmless, every claim's log, read in the
      order of appending, rebuilds its task's state and attempts, numbers its attempts 1..k, and
      has a terminal entry only at its end. */
  lemma {:induction false} LogRebuildsState(env: Env, calls: seq<Call>)
    requires HarmlessRun(env, calls)
    ensures LogsOk(Run(env, calls))
  {
    hide HarmlessCall, HarmlessRun, LogsOk, Inv, Step, Run;
    if calls == [] {
      NoLogs(env);
    } else {
      var n := |calls| - 1;
      HarmlessPrefix(env, calls, n);
      LogRebuildsState(env, calls[..n]);
      RunKeeps(env, calls[..n]);
      HarmlessAt(env, calls, n);
      StepLogs(env, Run(env, calls[..n]), calls[n]);
      RunTo(env, calls, n);
      assert calls[..n + 1] == calls;
    }
  }

  lemma NoLogs(env: Env)
    ensures LogsOk(Run(env, []))
  {
  }

  lemma HarmlessAt(env: Env, calls: seq<Call>, n: nat)
    requires HarmlessRun(env, calls) && n < |calls|
    ensures HarmlessCall(env, Run(env, calls[..n]), calls[n])
  {
  }

  /** Exactly which runs keep every log telling the state after every call: those whose accepted
      worker events are harmless. */
  lemma LogsTellExactly(env: Env, calls: seq<Call>)
    ensures (forall n: nat | n <= |calls| :: LogsOk(Run(env, calls[..n]))) <==> HarmlessRun(env, calls)
  {
    hide Run, LogsOk, HarmlessCall;
    if HarmlessRun(env, calls) {
      forall n: nat | n <= |calls| ensures LogsOk(Run(env, calls[..n])) {
        HarmlessPrefix(env, calls, n);
        LogRebuildsState(env, calls[..n]);
      }
    } else {
      var n: nat :| n < |calls| && !HarmlessCall(env, Run(env, calls[..n]), calls[n]);
      RunKeeps(env, calls[..n]);
      RunTo(env, calls, n);
      MisleadingCall(env, Run(env, calls[..n]), calls[n]);
      if LogsOk(Run(env, calls[..n])) {
        assert !LogsOk(Run(env, calls[..n + 1]));
      }
    }
  }

  lemma MisleadingCall(env: Env, w: World, call: Call)
    requires Inv(env, w) && !HarmlessCall(env, w, call)
    ensures LogsOk(w) ==> !LogsOk(Step(env, w, call).0)
  {
    hide Inv, LogsOk, Harmless, EventStep;
    if LogsOk(w) {
      EventExactly(env, w, call.claimId, call.eventType, call.time, call.payload, call.sigOk);
    }
  }

  lemma RunTo(env: Env, calls: seq<Call>, n: nat)
    requires n < |calls|
    ensures Run(env, calls[..n + 1]) == Step(env, Run(env, calls[..n]), calls[n]).0
  {
    assert calls[..n + 1][..n] == calls[..n];
  }

  /** Over every run, however its claims interleave and whatever events its workers log: a
      claim whose timestamps strictly increase passes `verify_chain`; and if the events were
      harmless, what `verify_chain` walks rebuilds the state of the claim's task. */
  lemma RunVerifies(env: Env, calls: seq<Call>, c: string)
    requires Sound(env.crypto) && c in Run(env, calls).claims
    requires Increasing(ClaimRows(Run(env, calls).rows, c))
    ensures var w := Run(env, calls);
      ChainOk(env.crypto, Chain(w.rows, c))
      && (HarmlessRun(env, calls) ==>
          TaskOf(w, c).Some? && LogOk(Chain(w.rows, c), TaskOf(w, c).value))
  {
    RunKeeps(env, calls);
    var w := Run(env, calls);
    assert c != "" && TaskOf(w, c).Some?;
    AuthenticVerifies(env.crypto, w.rows, c);
    if HarmlessRun(env, calls) {
      LogRebuildsState(env, calls);
    }
  }

  /** Over every run, for a claim without tied timestamps: it passes `verify_chain` exactly when
      its timestamps increase in the order of its calls, unless two of its rows collide. */
  lemma RunVerifiesExactly(env: Env, calls: seq<Call>, c: string) returns (p: Row, q: Row)
    requires Sound(env.crypto) && c in Run(env, calls).claims
    requires NoTies(ClaimRows(Run(env, calls).rows, c))
    ensures var rows := Run(env, calls).rows;
      && (Increasing(ClaimRows(rows, c)) ==> ChainOk(env.crypto, Chain(rows, c)))
      && (ChainOk(env.crypto, Chain(rows, c)) ==>
          Increasing(ClaimRows(rows, c)) || LinksCollide(env.crypto, Chain(rows, c), p, q))
  {
    hide Run, ChainOk, ClaimRows, Chain, Increasing, Sound, NoTies;
    RunKeeps(env, calls);
    p, q := VerifiesExactly(env.crypto, Run(env, calls).rows, c);
  }
}
