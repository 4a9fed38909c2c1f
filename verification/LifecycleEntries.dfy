/** What each remote call writes to the audit log, in full. */
module LifecycleEntries {
  import opened Basics
  import opened JsonText
  import opened AuditChain
  import opened AuditProofs
  import opened Threshold
  import opened Lifecycle
  import opened LifecycleInvariants
  import opened LifecycleLog
  import opened LifecycleRuns
  import opened LifecycleLaws

  /** An entry without its timestamp. */
  datatype Note = Note(eventType: string, actor: string, payload: Dict, claimId: Option<string>, taskId: string)

  predicate Says(r: Row, n: Note) {
    && r.entry.eventType == n.eventType && r.entry.actor == n.actor && r.entry.payload == n.payload
    && r.entry.claimId == n.claimId && r.entry.taskId == Some(n.taskId)
  }

  /** The call added exactly these entries, in this order. */
  ghost predicate Wrote(w: World, w': World, notes: seq<Note>) {
    && |w'.rows| == |w.rows| + |notes| && w.rows <= w'.rows
    && forall i | 0 <= i < |notes| :: Says(w'.rows[|w.rows| + i], notes[i])
  }

  const COORDINATOR_DID := "did:wcp:coordinator"

  function Word(d: Decision): string {
    if d == Pass then "pass" else if d == Fail then "fail" else "review"
  }

  lemma AdvanceWrote(env: Env, w0: World, w: World, c: string, task: Task, eventType: string, actor: string,
                     payload: Dict)
    requires c in w.claims && w.rows == w0.rows
    ensures Wrote(w0, Advance(env, w, c, task, eventType, actor, payload),
                  [Note(eventType, actor, payload, Some(c), w.claims[c].taskId)])
  {
    AdvanceMoves(env, w, c, task, eventType, actor, payload);
    hide Advance;
  }

  /** A post: its task, accounting reference and, where given, what it informs of and continues. */
  lemma PostEntries(env: Env, w: World, taskId: string, d: Descriptor, expiry: Option<int>)
    requires PostStep(env, w, taskId, d, expiry).1 == Accepted
    ensures var w' := PostStep(env, w, taskId, d, expiry).0;
      && w'.rows != []
      && var payload := w'.rows[|w'.rows| - 1].entry.payload;
      && Wrote(w, w', [Note("task_posted", d.postedBy, payload, None, taskId)])
      && payload.Keys == {"task_id", "accounting_ref"} + (if d.informational.Some? then {"informational"} else {})
                         + (if d.continuationOf.Some? then {"continuation_of"} else {})
      && payload["task_id"] == JString(taskId) && payload["accounting_ref"] == d.accountingRef
      && (d.informational.Some? ==> payload["informational"] == d.informational.value)
      && (d.continuationOf.Some? ==> payload["continuation_of"] == d.continuationOf.value)
  {
    PostedKeys(taskId, d);
    hide PostedPayload;
  }

  lemma PostedKeys(taskId: string, d: Descriptor)
    ensures var payload := PostedPayload(taskId, d);
      && payload.Keys == {"task_id", "accounting_ref"} + (if d.informational.Some? then {"informational"} else {})
                         + (if d.continuationOf.Some? then {"continuation_of"} else {})
      && payload["task_id"] == JString(taskId) && payload["accounting_ref"] == d.accountingRef
      && (d.informational.Some? ==> payload["informational"] == d.informational.value)
      && (d.continuationOf.Some? ==> payload["continuation_of"] == d.continuationOf.value)
  {
  }

  lemma ClaimEntries(env: Env, w: World, taskId: string, worker: string, bid: Option<string>, etaOk: bool,
                     acceptance: Acceptance, newClaim: string, now: int)
    requires ClaimStep(env, w, taskId, worker, bid, etaOk, acceptance, newClaim, now).1 == Accepted
    ensures Wrote(w, ClaimStep(env, w, taskId, worker, bid, etaOk, acceptance, newClaim, now).0,
      [Note("task_claimed", worker,
            map["task_id" := JString(taskId), "claim_id" := JString(newClaim),
                "bid" := if bid.None? then JNull else JString(bid.value)],
            Some(newClaim), taskId)])
  {
    var w1 := w.(claims := w.claims[newClaim := Claim(taskId, worker, bid, true, Some(now))]);
    AdvanceWrote(env, w, w1, newClaim, w.tasks[taskId].(state := Claimed), "task_claimed", worker,
                 ClaimedPayload(taskId, newClaim, bid));
    hide Advance, Wrote;
  }

  lemma OpenEntries(env: Env, w: World, c: string, session: string)
    requires OpenStep(env, w, c, session).1 == Accepted
    ensures Wrote(w, OpenStep(env, w, c, session).0,
      [Note("execution_started", w.claims[c].workerId,
            map["claim_id" := JString(c), "session_id" := JString(session)], Some(c), w.claims[c].taskId)])
  {
    AdvanceWrote(env, w, w, c, TaskOf(w, c).value.(state := Executing), "execution_started", w.claims[c].workerId,
                 StartedPayload(c, session));
    hide Advance, Wrote;
  }

  /** An event is logged as the worker sent it. */
  lemma EventEntries(env: Env, w: World, c: string, eventType: string, time: Option<int>, payload: Dict, sigOk: bool)
    requires EventStep(env, w, c, eventType, time, payload, sigOk).1 == Accepted
    ensures Wrote(w, EventStep(env, w, c, eventType, time, payload, sigOk).0,
      [Note(eventType, w.claims[c].workerId, payload, Some(c), w.claims[c].taskId)])
  {
    var claim := w.claims[c];
    var w1 := if eventType == "heartbeat" then w.(claims := w.claims[c := claim.(lastHeartbeat := time)]) else w;
    AdvanceWrote(env, w, w1, c, TaskOf(w, c).value, eventType, claim.workerId, payload);
    hide Advance, Wrote;
  }

  lemma SuperviseEntries(env: Env, w: World, c: string, reason: string, urgency: string)
    requires SuperviseStep(env, w, c, reason, urgency).1 == Accepted
    ensures Wrote(w, SuperviseStep(env, w, c, reason, urgency).0,
      [Note("supervision_handoff", w.claims[c].workerId,
            map["claim_id" := JString(c), "handoff_reason" := JString(reason), "urgency" := JString(urgency),
                "new_state" := JString(if InState(w, c, {Executing}) then "supervising" else "executing")],
            Some(c), w.claims[c].taskId)])
  {
    var task := TaskOf(w, c).value;
    var s := if task.state == Executing then Supervising else Executing;
    AdvanceWrote(env, w, w, c, task.(state := s), "supervision_handoff", w.claims[c].workerId,
                 HandoffPayload(c, reason, urgency, s));
    hide Advance, Wrote;
  }

  lemma AbortEntries(env: Env, w: World, c: string, reason: string, snapshot: Dict)
    requires AbortStep(env, w, c, reason, snapshot).1 == Accepted
    ensures Wrote(w, AbortStep(env, w, c, reason, snapshot).0,
      [Note("task_aborted", w.claims[c].workerId,
            map["claim_id" := JString(c), "task_id" := JString(w.claims[c].taskId), "reason" := JString(reason),
                "state_snapshot" := JObject(snapshot),
                "accounting_ref" := w.tasks[w.claims[c].taskId].descriptor.accountingRef],
            Some(c), w.claims[c].taskId)])
  {
    var task := TaskOf(w, c).value;
    AdvanceWrote(env, w, w, c, task.(state := Aborted), "task_aborted", w.claims[c].workerId,
                 AbortedPayload(c, w.claims[c].taskId, reason, snapshot, task.descriptor.accountingRef));
    hide Advance, Wrote;
  }

  // ----- attestations --------------------------------------------------------------------------

  function AttemptNote(w: World, c: string, n: nat, d: Decision): Note
    requires c in w.claims
  {
    Note("attestation_attempt", w.claims[c].workerId,
         map["claim_id" := JString(c), "attempt_number" := JInt(n), "decision" := JString(Word(d))],
         Some(c), w.claims[c].taskId)
  }

  /** What follows an attempt: a completion, a recheck or an end; after a review nothing. */
  function VerdictNotes(w: World, c: string, n: nat, remaining: nat, d: Decision, reasons: seq<string>, ref: JSON)
    : seq<Note>
    requires c in w.claims
  {
    var taskId := w.claims[c].taskId;
    if d == Pass then
      [Note("task_completed", COORDINATOR_DID,
            map["claim_id" := JString(c), "task_id" := JString(taskId), "accounting_ref" := ref], Some(c), taskId)]
    else if d == Fail && remaining > 0 then
      [Note("recheck_requested", COORDINATOR_DID,
            map["claim_id" := JString(c), "attempt_number_just_failed" := JInt(n),
                "attempts_remaining" := JInt(remaining), "verifier_reasons" := StringsJson(reasons)], Some(c), taskId)]
    else if d == Fail then
      [Note("task_voided", COORDINATOR_DID,
            map["claim_id" := JString(c), "task_id" := JString(taskId), "attempts_used" := JInt(n),
                "verifier_reasons" := StringsJson(reasons), "accounting_ref" := ref], Some(c), taskId)]
    else []
  }

  lemma WroteMore(w: World, w1: World, w2: World, a: seq<Note>, b: seq<Note>)
    requires Wrote(w, w1, a) && Wrote(w1, w2, b)
    ensures Wrote(w, w2, a + b)
  {
    forall i | 0 <= i < |a + b| ensures Says(w2.rows[|w.rows| + i], (a + b)[i]) {
      if i >= |a| {
        assert (a + b)[i] == b[i - |a|];
      }
    }
  }

  lemma RouteWrote(env: Env, w: World, c: string, task: Task, d: Decision)
    requires c in w.claims
    ensures var n := task.attemptsUsed + 1;
      Wrote(w, Route(env, w, c, task, d),
        [AttemptNote(w, c, n, d)]
        + VerdictNotes(w, c, n, Remaining(task, n), d, env.reasons(|w.rows| + 1), task.descriptor.accountingRef))
  {
    hide Advance, Wrote;
    var claim, n := w.claims[c], task.attemptsUsed + 1;
    var task' := task.(state := Attesting, attemptsUsed := n);
    AdvanceMoves(env, w, c, task', "attestation_attempt", claim.workerId, AttemptPayload(c, n, d));
    AdvanceWrote(env, w, w, c, task', "attestation_attempt", claim.workerId, AttemptPayload(c, n, d));
    var w1 := Advance(env, w, c, task', "attestation_attempt", claim.workerId, AttemptPayload(c, n, d));
    var remaining, ref := Remaining(task, n), task.descriptor.accountingRef;
    var notes := VerdictNotes(w, c, n, remaining, d, env.reasons(|w1.rows|), ref);
    VerdictWrote(env, w1, w, c, task', n, remaining, d, ref);
    WroteMore(w, w1, Route(env, w, c, task, d), [AttemptNote(w, c, n, d)], notes);
    OneRow(w, w1, [AttemptNote(w, c, n, d)]);
  }

  lemma OneRow(w: World, w1: World, notes: seq<Note>)
    requires Wrote(w, w1, notes)
    ensures |w1.rows| == |w.rows| + |notes|
  {
  }

  /** The second half of routing. */
  ghost function Verdict2(env: Env, w1: World, c: string, task': Task, n: nat, remaining: nat, d: Decision, ref: JSON)
    : World
    requires c in w1.claims
  {
    match d
    case Review => w1
    case Pass =>
      Advance(env, w1, c, task'.(state := Completed), "task_completed", COORDINATOR,
              CompletedPayload(c, w1.claims[c].taskId, ref))
    case Fail =>
      if remaining > 0 then
        Advance(env, w1, c, task'.(state := Rechecking), "recheck_requested", COORDINATOR,
                RecheckPayload(c, n, remaining, env.reasons(|w1.rows|)))
      else
        Advance(env, w1, c, task'.(state := Voided), "task_voided", COORDINATOR,
                VoidedPayload(c, w1.claims[c].taskId, n, env.reasons(|w1.rows|), ref))
  }

  lemma VerdictWrote(env: Env, w1: World, w: World, c: string, task': Task, n: nat, remaining: nat, d: Decision,
                     ref: JSON)
    requires c in w1.claims && w1.claims == w.claims
    ensures Wrote(w1, Verdict2(env, w1, c, task', n, remaining, d, ref),
                  VerdictNotes(w, c, n, remaining, d, env.reasons(|w1.rows|), ref))
  {
    hide Advance;
    match d
    case Review =>
    case Pass =>
      AdvanceWrote(env, w1, w1, c, task'.(state := Completed), "task_completed", COORDINATOR,
                   CompletedPayload(c, w1.claims[c].taskId, ref));
    case Fail =>
      if remaining > 0 {
        AdvanceWrote(env, w1, w1, c, task'.(state := Rechecking), "recheck_requested", COORDINATOR,
                     RecheckPayload(c, n, remaining, env.reasons(|w1.rows|)));
      } else {
        AdvanceWrote(env, w1, w1, c, task'.(state := Voided), "task_voided", COORDINATOR,
                     VoidedPayload(c, w1.claims[c].taskId, n, env.reasons(|w1.rows|), ref));
      }
  }

  // ----- the sweep --------------------------------------------------------------------------------

  function TimeoutNote(w: World, c: string): Note
    requires c in w.claims && w.claims[c].lastHeartbeat.Some?
  {
    Note("heartbeat_timeout", COORDINATOR_DID,
         map["claim_id" := JString(c), "last_heartbeat_at" := JInt(w.claims[c].lastHeartbeat.value),
             "handoff_reason" := JString("connectivity_lost")],
         Some(c), w.claims[c].taskId)
  }

  ghost predicate AllTimed(w: World, promoted: seq<string>) {
    forall c | c in promoted :: c in w.claims && w.claims[c].lastHeartbeat.Some?
  }

  ghost function TimeoutNotes(w: World, promoted: seq<string>): (notes: seq<Note>)
    requires AllTimed(w, promoted)
    ensures |notes| == |promoted| && forall i | 0 <= i < |promoted| :: notes[i] == TimeoutNote(w, promoted[i])
  {
    seq(|promoted|, i requires 0 <= i < |promoted| => TimeoutNote(w, promoted[i]))
  }

  /** A sweep writes one timeout entry for each claim it promotes, in that order, with the heartbeat
      the claim last gave. */
  lemma {:induction false} SweepEntries(env: Env, w: World, order: seq<string>, now: int)
    ensures var (w', promoted) := SweepStep(env, w, order, now);
      AllTimed(w, promoted) && Wrote(w, w', TimeoutNotes(w, promoted))
  {
    if order != [] {
      var init, c := order[..|order| - 1], order[|order| - 1];
      SweepEntries(env, w, init, now);
      var (w0, before) := SweepStep(env, w, init, now);
      hide Advance, Wrote, AllTimed, TimeoutNote;
      if TaskOf(w0, c).Some? && Stale(w0.claims[c], now) {
        SweptOne(env, w, w0, before, c);
      }
    }
  }

  lemma SweptOne(env: Env, w: World, w0: World, before: seq<string>, c: string)
    requires AllTimed(w, before) && Wrote(w, w0, TimeoutNotes(w, before)) && w0.claims == w.claims
    requires TaskOf(w0, c).Some? && w0.claims[c].lastHeartbeat.Some?
    ensures AllTimed(w, before + [c])
    ensures Wrote(w, Advance(env, w0, c, TaskOf(w0, c).value.(state := Supervising), "heartbeat_timeout", COORDINATOR,
                             TimeoutPayload(c, w0.claims[c].lastHeartbeat.value)), TimeoutNotes(w, before + [c]))
  {
    hide Advance, Wrote;
    var payload := TimeoutPayload(c, w0.claims[c].lastHeartbeat.value);
    var task := TaskOf(w0, c).value.(state := Supervising);
    AdvanceWrote(env, w0, w0, c, task, "heartbeat_timeout", COORDINATOR, payload);
    WroteMore(w, w0, Advance(env, w0, c, task, "heartbeat_timeout", COORDINATOR, payload),
              TimeoutNotes(w, before), [TimeoutNote(w, c)]);
    assert TimeoutNotes(w, before + [c]) == TimeoutNotes(w, before) + [TimeoutNote(w, c)];
  }

  // ----- what an attestation does, in full ----------------------------------------------------

  /** A signed piece of evidence for which no row can be built. */
  predicate Unstorable(s: Submission) {
    && s.sigOk
    && ((s.mode != "sensor-witness" && s.mode != "third-party-witness" && s.mode != "cryptographic-presence"
         && s.mode != "owner-sign-off")
        || s.collectedAt.None?)
  }

  /** An unsigned piece of evidence fails, whatever it is. */
  function VerdictOf(s: Submission): Verdict {
    if s.sigOk then Verdict(s.mode, s.verdict) else Verdict(if s.mode == "" then "?" else s.mode, Fail)
  }

  function SignedItems(items: seq<Submission>): seq<Submission> {
    if items == [] then []
    else
      var s := items[|items| - 1];
      SignedItems(items[..|items| - 1]) + (if s.sigOk then [s] else [])
  }

  ghost predicate StoredFor(rows: seq<EvidenceRow>, items: seq<Submission>, c: string, worker: string) {
    && |rows| == |items|
    && forall i | 0 <= i < |items| :: rows[i] == EvidenceRow(c, worker, items[i].mode, items[i].kind, items[i].verdict)
  }

  ghost predicate AllStorable(items: seq<Submission>) {
    forall i | 0 <= i < |items| :: !Unstorable(items[i])
  }

  /** The examination of evidence that can all be stored: one verdict each, and a row for each
      signed piece. */
  lemma {:induction false} ExamineExactly(c: string, worker: string, items: seq<Submission>)
    requires AllStorable(items)
    ensures var e := Examine(c, worker, items);
      && !e.failed && |e.verdicts| == |items|
      && (forall i | 0 <= i < |items| :: e.verdicts[i] == VerdictOf(items[i]))
      && StoredFor(e.stored, SignedItems(items), c, worker)
  {
    if items != [] {
      var init := items[..|items| - 1];
      assert AllStorable(init) by {
        assert forall i | 0 <= i < |init| :: init[i] == items[i];
      }
      assert !Unstorable(items[|items| - 1]);
      ExamineExactly(c, worker, init);
    }
  }

  /** Otherwise it stops at the first piece that cannot be stored, having stored those before it. */
  lemma {:induction false} ExamineFails(c: string, worker: string, items: seq<Submission>, k: nat)
    requires k < |items| && Unstorable(items[k]) && AllStorable(items[..k])
    ensures var e := Examine(c, worker, items);
      e.failed && StoredFor(e.stored, SignedItems(items[..k]), c, worker)
    decreases |items|
  {
    var init := items[..|items| - 1];
    if k == |items| - 1 {
      assert init == items[..k];
      ExamineExactly(c, worker, init);
    } else {
      assert init[..k] == items[..k];
      ExamineFails(c, worker, init, k);
    }
  }

  function Verdicts(items: seq<Submission>): (vs: seq<Verdict>)
    ensures |vs| == |items| && forall i | 0 <= i < |items| :: vs[i] == VerdictOf(items[i])
  {
    seq(|items|, i requires 0 <= i < |items| => VerdictOf(items[i]))
  }

  function AskedOf(d: Descriptor): Requirement {
    if d.requirement.Some? then d.requirement.value else Requirement([], None, None, None)
  }

  /** The state an attempt number `n` leads to. */
  ghost function After(d: Descriptor, items: seq<Submission>, n: nat): TaskState {
    if Suffices(AskedOf(d), Verdicts(items)) then Completed
    else if Awaits(AskedOf(d), Verdicts(items)) then Attesting
    else if d.maxAttempts.Some? && n < d.maxAttempts.value then Rechecking
    else Voided
  }

  /** An attestation of storable evidence, from one of the three states that allow it: it counts the
      attempt, stores the signed evidence, and completes the task exactly if the verdicts suffice. */
  lemma AttestExactly(env: Env, w: World, c: string, items: seq<Submission>)
    requires InState(w, c, {Executing, Supervising, Rechecking}) && AllStorable(items)
    ensures var (w', reply) := AttestStep(env, w, c, items);
      var taskId := w.claims[c].taskId;
      var task := w.tasks[taskId];
      var n := task.attemptsUsed + 1;
      && reply.Judged? && reply.attemptNumber == n
      && (reply.decision == Pass <==> Suffices(AskedOf(task.descriptor), Verdicts(items)))
      && (reply.decision == Review <==> Awaits(AskedOf(task.descriptor), Verdicts(items)))
      && reply.attemptsRemaining == (if task.descriptor.maxAttempts.Some? && n < task.descriptor.maxAttempts.value
                                     then task.descriptor.maxAttempts.value - n else 0)
      && w'.tasks == w.tasks[taskId := Task(task.descriptor, task.expiry, After(task.descriptor, items, n), n)]
      && w'.claims == w.claims && w'.workers == w.workers && |w.evidence| <= |w'.evidence|
      && w'.evidence[..|w.evidence|] == w.evidence
      && StoredFor(w'.evidence[|w.evidence|..], SignedItems(items), c, w.claims[c].workerId)
  {
    hide Examine, Evaluate, Route, Suffices, Awaits, StoredFor;
    var task, worker := TaskOf(w, c).value, w.claims[c].workerId;
    ExamineExactly(c, worker, items);
    var exam := Examine(c, worker, items);
    assert exam.verdicts == Verdicts(items);
    assert RequirementOf(task) == AskedOf(task.descriptor);
    EvaluateExactly(AskedOf(task.descriptor), Verdicts(items));
    var w1 := w.(evidence := w.evidence + exam.stored);
    RouteState(env, w1, c, task, Evaluate(AskedOf(task.descriptor), Verdicts(items)));
    assert w1.evidence[|w.evidence|..] == exam.stored && w1.evidence[..|w.evidence|] == w.evidence;
  }

  lemma RouteState(env: Env, w: World, c: string, task: Task, d: Decision)
    requires TaskOf(w, c) == Some(task)
    ensures var w' := Route(env, w, c, task, d);
      var n := task.attemptsUsed + 1;
      w' == World(w.workers, w.tasks[w.claims[c].taskId :=
                    Task(task.descriptor, task.expiry,
                         if d == Pass then Completed else if d == Review then Attesting
                         else if task.descriptor.maxAttempts.Some? && n < task.descriptor.maxAttempts.value
                         then Rechecking else Voided, n)],
                  w.claims, w.evidence, w'.rows)
  {
    hide MakeRow, AttemptPayload, CompletedPayload, RecheckPayload, VoidedPayload;
  }

  /** Any other attestation is refused: nothing changes, but that the evidence before a piece that
      cannot be stored is stored. */
  lemma AttestRefused(env: Env, w: World, c: string, items: seq<Submission>, k: nat)
    requires InState(w, c, {Executing, Supervising, Rechecking}) ==>
      k < |items| && Unstorable(items[k]) && AllStorable(items[..k])
    ensures var (w', reply) := AttestStep(env, w, c, items);
      && reply.Refused? && w' == w.(evidence := w'.evidence)
      && if InState(w, c, {Executing, Supervising, Rechecking}) then
           |w.evidence| <= |w'.evidence| && w'.evidence[..|w.evidence|] == w.evidence
           && StoredFor(w'.evidence[|w.evidence|..], SignedItems(items[..k]), c, w.claims[c].workerId)
         else w'.evidence == w.evidence
  {
    hide Examine, Evaluate, Route, StoredFor, SignedItems;
    if InState(w, c, {Executing, Supervising, Rechecking}) {
      var worker := w.claims[c].workerId;
      ExamineFails(c, worker, items, k);
      var e := Examine(c, worker, items);
      assert (w.evidence + e.stored)[|w.evidence|..] == e.stored;
      assert (w.evidence + e.stored)[..|w.evidence|] == w.evidence;
    }
  }

  /** What a judged attestation writes. */
  lemma AttestEntries(env: Env, w: World, c: string, items: seq<Submission>)
    requires InState(w, c, {Executing, Supervising, Rechecking}) && AllStorable(items)
    ensures var (w', reply) := AttestStep(env, w, c, items);
      && reply.Judged?
      && Wrote(w, w',
           [AttemptNote(w, c, reply.attemptNumber, reply.decision)]
           + VerdictNotes(w, c, reply.attemptNumber, reply.attemptsRemaining, reply.decision,
                          env.reasons(|w.rows| + 1), w.tasks[w.claims[c].taskId].descriptor.accountingRef))
  {
    hide Examine, Evaluate, Route, Wrote, VerdictNotes, AttemptNote;
    var task, worker := TaskOf(w, c).value, w.claims[c].workerId;
    ExamineExactly(c, worker, items);
    var exam := Examine(c, worker, items);
    var w1 := w.(evidence := w.evidence + exam.stored);
    var d, n := Evaluate(RequirementOf(task), exam.verdicts), task.attemptsUsed + 1;
    RouteWrote(env, w1, c, task, d);
    SameNotes(w, w1, Route(env, w1, c, task, d), c, n, Remaining(task, n), d, env.reasons(|w.rows| + 1),
              task.descriptor.accountingRef);
  }

  lemma SameNotes(w: World, w1: World, w': World, c: string, n: nat, remaining: nat, d: Decision,
                  reasons: seq<string>, ref: JSON)
    requires c in w.claims && w1 == w.(evidence := w1.evidence)
    requires Wrote(w1, w', [AttemptNote(w1, c, n, d)] + VerdictNotes(w1, c, n, remaining, d, reasons, ref))
    ensures Wrote(w, w', [AttemptNote(w, c, n, d)] + VerdictNotes(w, c, n, remaining, d, reasons, ref))
  {
    assert AttemptNote(w1, c, n, d) == AttemptNote(w, c, n, d);
    assert VerdictNotes(w1, c, n, remaining, d, reasons, ref) == VerdictNotes(w, c, n, remaining, d, reasons, ref);
  }
}
