/**
 The coordinator's task service as it runs: tables updated in place, one method per
 remote call, each proved to take the step that `Lifecycle` specifies.
*/
module TasksService {
  import opened Basics
  import opened JsonText
  import opened AuditChain
  import opened AuditProofs
  import opened Threshold
  import opened Lifecycle
  import opened LifecycleInvariants
  import opened LifecycleLog
  import opened LifecycleRuns
  import Matching

  /** What a task's constraints and payload ask of a worker; what is absent is empty. */
  datatype Constraints = Constraints(classes: seq<string>, venueId: string, payloadVenueId: string,
                                     certifications: seq<string>)

  /** The capability query that a task stands for. */
  function DerivedQuery(d: Descriptor, c: Constraints): Matching.Query {
    var modes := match d.requirement case None => [] case Some(r) => r.modes;
    var venue := if c.venueId != "" then c.venueId else c.payloadVenueId;
    if modes == [] && d.descriptorType == "" && venue == "" && c.certifications == [] then Matching.Empty
    else
      Matching.Query(modes, if d.descriptorType == "" then [] else [d.descriptorType], c.certifications,
                     if venue == "" then None else Some(venue))
  }

  /** The workers counted are exactly those of an allowed class that attest in every mode the task
      requires, take its type, hold its certifications and are at its venue. */
  lemma EligibleExactly(d: Descriptor, c: Constraints, w: Matching.Worker)
    ensures Matching.Selected(w, DerivedQuery(d, c), c.classes) <==>
      && (c.classes == [] || w.workerClass in c.classes)
      && (d.requirement.Some? ==> Matching.AllIn(d.requirement.value.modes, w.required.methods))
      && (d.descriptorType != "" && w.required.descriptorTypes.Some? ==>
          d.descriptorType in w.required.descriptorTypes.value)
      && (forall id | id in c.certifications :: Some(id) in w.required.certificationIds)
      && (c.venueId != "" ==> w.required.venueId == Some(c.venueId))
      && (c.venueId == "" && c.payloadVenueId != "" ==> w.required.venueId == Some(c.payloadVenueId))
  {
    forall id ensures id in c.certifications <==> Some(id) in Matching.Ids(c.certifications) {
      Matching.IdsIn(c.certifications, id);
    }
    assert forall x | x in Matching.Ids(c.certifications) :: x.Some?;
  }

  class Service {
    var workers: map<string, string>
    var tasks: map<string, Task>
    var claims: map<string, Claim>
    var evidence: seq<EvidenceRow>
    const audit: AuditLog
    const clock: nat -> int
    const reasons: nat -> seq<string>
    const resolves: string -> bool
    const registry: map<string, set<string>>
    /** The calls that filled the tables, by this service or by earlier ones over the same database. */
    ghost var served: seq<Call>

    ghost function Tables(): World
      reads this, audit
    {
      World(workers, tasks, claims, evidence, audit.rows)
    }

    ghost function Environment(): Env {
      Env(audit.crypto, clock, reasons, resolves, registry)
    }

    /** The tables are what the calls served so far make of an empty database. */
    ghost predicate Valid()
      reads this, audit
    {
      Tables() == Run(Environment(), served)
    }

    constructor (audit: AuditLog, clock: nat -> int, reasons: nat -> seq<string>, resolves: string -> bool,
                 registry: map<string, set<string>>,
                 workers: map<string, string>, tasks: map<string, Task>, claims: map<string, Claim>,
                 evidence: seq<EvidenceRow>, ghost served: seq<Call>)
      requires World(workers, tasks, claims, evidence, audit.rows)
            == Run(Env(audit.crypto, clock, reasons, resolves, registry), served)
      ensures Valid() && this.audit == audit && this.served == served
      ensures Tables() == World(workers, tasks, claims, evidence, audit.rows)
      ensures Environment() == Env(audit.crypto, clock, reasons, resolves, registry)
    {
      this.audit, this.clock, this.reasons, this.resolves, this.registry := audit, clock, reasons, resolves, registry;
      this.workers, this.tasks, this.claims, this.evidence := workers, tasks, claims, evidence;
      this.served := served;
    }

    /** Appends to the log with the clock's next reading. */
    method Emit(eventType: string, actor: string, payload: Dict, claimId: Option<string>, taskId: string)
      modifies audit
      ensures Tables() == Log(Environment(), old(Tables()), eventType, actor, payload, claimId, taskId)
    {
      var _, _ := audit.Append(Entry(eventType, actor, payload, claimId, Some(taskId), clock(|audit.rows|)));
    }

    method UpsertWorker(workerId: string, principal: string)
      requires Valid()
      modifies this
      ensures Valid() && served == old(served) + [Call.UpsertWorker(workerId, principal)]
      ensures (Tables(), Accepted) == Step(Environment(), old(Tables()), Call.UpsertWorker(workerId, principal))
    {
      RunNext(Environment(), served, Call.UpsertWorker(workerId, principal));
      served := served + [Call.UpsertWorker(workerId, principal)];
      hide Run;
      workers := workers[workerId := principal];
    }

    /** `table` is the worker table as the query lists it. The count is 0 where the source raises. */
    method Post(taskId: string, d: Descriptor, expiry: Option<int>, c: Constraints, table: seq<Matching.Worker>)
      returns (reply: Reply, eligible: nat)
      requires Valid()
      modifies this, audit
      ensures Valid() && served == old(served) + [Call.Post(taskId, d, expiry)]
      ensures (Tables(), reply) == PostStep(Environment(), old(Tables()), taskId, d, expiry)
      ensures reply == Accepted ==> eligible == |Matching.Matches(table, DerivedQuery(d, c), c.classes)|
    {
      hide Run, MakeRow, Matching.Matches, DerivedQuery;
      RunNext(Environment(), served, Call.Post(taskId, d, expiry));
      served := served + [Call.Post(taskId, d, expiry)];
      if d.hasSettlement {
        return Refused(InvalidDescriptor), 0;
      }
      if d.hasLegacyOverride {
        return Refused(InvalidDescriptor), 0;
      }
      if !ValidRequirement(registry, d) {
        return Refused(InvalidRequirement), 0;
      }
      if OutOfScopeType(d.descriptorType) {
        return Refused(OutOfScope), 0;
      }
      if d.subcontract {
        return Refused(SubcontractForbidden), 0;
      }
      if d.postedBy == "" {
        return Refused(InvalidParams), 0;
      }
      if !resolves(d.postedBy) {
        return Refused(DidNotResolved), 0;
      }
      if expiry.None? {
        return Refused(Unreadable), 0;
      }
      if taskId in tasks {
        return Refused(IntegrityError), 0;
      }
      tasks := tasks[taskId := Task(d, expiry.value, Posted, 0)];
      Emit("task_posted", d.postedBy, PostedPayload(taskId, d), None, taskId);
      var matched := Matching.MatchingWorkers(table, DerivedQuery(d, c), c.classes);
      eligible := |matched|;
      reply := Accepted;
    }

    method ClaimTask(taskId: string, workerId: string, bid: Option<string>, etaOk: bool, acceptance: Acceptance,
                     newClaim: string, now: int) returns (reply: Reply)
      requires Valid()
      modifies this, audit
      ensures Valid()
      ensures served == old(served) + [Call.ClaimTask(taskId, workerId, bid, etaOk, acceptance, newClaim, now)]
      ensures (Tables(), reply)
           == ClaimStep(Environment(), old(Tables()), taskId, workerId, bid, etaOk, acceptance, newClaim, now)
    {
      hide Run, MakeRow, HasAcceptedClaim;
      ghost var call := Call.ClaimTask(taskId, workerId, bid, etaOk, acceptance, newClaim, now);
      RunNext(Environment(), served, call);
      served := served + [call];
      if taskId !in tasks {
        return Refused(TaskNotFound);
      }
      var task := tasks[taskId];
      if task.state != Posted {
        if task.state == Claimed {
          return Refused(TaskPreempted);
        }
        return Refused(TaskStateInvalid);
      }
      if task.expiry < now {
        return Refused(TaskStateInvalid);
      }
      if workerId !in workers {
        return Refused(DidNotResolved);
      }
      if task.descriptor.postedBy == workers[workerId] {
        if "third-party-witness" !in RequirementOf(task).modes {
          return Refused(PolicyViolation);
        }
      }
      if acceptance != Signed {
        return Refused(Unauthenticated);
      }
      if HasAcceptedClaim(claims, taskId) {
        return Refused(TaskPreempted);
      }
      if !etaOk {
        return Refused(Unreadable);
      }
      if newClaim == "" || newClaim in claims {
        return Refused(IntegrityError);
      }
      claims := claims[newClaim := Claim(taskId, workerId, bid, true, Some(now))];
      tasks := tasks[taskId := task.(state := Claimed)];
      Emit("task_claimed", workerId, ClaimedPayload(taskId, newClaim, bid), Some(newClaim), taskId);
      reply := Accepted;
    }

    /** The claim's task, looked up in both tables. */
    method ClaimAndTask(claimId: string) returns (task: Option<Task>)
      ensures task == TaskOf(Tables(), claimId)
    {
      if claimId !in claims {
        return None;
      }
      if claims[claimId].taskId !in tasks {
        return None;
      }
      task := Some(tasks[claims[claimId].taskId]);
    }

    /** Stores the claim's task and logs the change. */
    method Transition(claimId: string, task: Task, eventType: string, actor: string, payload: Dict)
      requires claimId in claims
      modifies this`tasks, audit
      ensures Tables() == Advance(Environment(), old(Tables()), claimId, task, eventType, actor, payload)
      ensures tasks == old(tasks)[claims[claimId].taskId := task]
    {
      var taskId := claims[claimId].taskId;
      tasks := tasks[taskId := task];
      Emit(eventType, actor, payload, Some(claimId), taskId);
    }

    method ExecuteOpen(claimId: string, sessionId: string) returns (reply: Reply)
      requires Valid()
      modifies this, audit
      ensures Valid() && served == old(served) + [Call.ExecuteOpen(claimId, sessionId)]
      ensures (Tables(), reply) == OpenStep(Environment(), old(Tables()), claimId, sessionId)
    {
      hide Run, Advance;
      RunNext(Environment(), served, Call.ExecuteOpen(claimId, sessionId));
      served := served + [Call.ExecuteOpen(claimId, sessionId)];
      var found := ClaimAndTask(claimId);
      if found.None? {
        return Refused(TaskNotFound);
      }
      var task := found.value;
      if task.state != Claimed && task.state != Supervising {
        return Refused(TaskStateInvalid);
      }
      Transition(claimId, task.(state := Executing), "execution_started", claims[claimId].workerId,
                 StartedPayload(claimId, sessionId));
      reply := Accepted;
    }

    method ExecuteEvent(claimId: string, eventType: string, time: Option<int>, payload: Dict,
                        sigOk: bool) returns (reply: Reply)
      requires Valid()
      modifies this, audit
      ensures Valid() && served == old(served) + [Call.ExecuteEvent(claimId, eventType, time, payload, sigOk)]
      ensures (Tables(), reply) == EventStep(Environment(), old(Tables()), claimId, eventType, time, payload, sigOk)
    {
      hide Run, Advance;
      RunNext(Environment(), served, Call.ExecuteEvent(claimId, eventType, time, payload, sigOk));
      served := served + [Call.ExecuteEvent(claimId, eventType, time, payload, sigOk)];
      var found := ClaimAndTask(claimId);
      if found.None? {
        return Refused(TaskNotFound);
      }
      if found.value.state != Executing {
        return Refused(TaskStateInvalid);
      }
      if !sigOk {
        return Refused(Unauthenticated);
      }
      if eventType == "heartbeat" {
        if time.None? {
          return Refused(Unreadable);
        }
        claims := claims[claimId := claims[claimId].(lastHeartbeat := time)];
      }
      Transition(claimId, found.value, eventType, claims[claimId].workerId, payload);
      reply := Accepted;
    }

    /** The claims of executing tasks, in whatever order the database yields them. */
    method ExecutingClaims() returns (order: seq<string>)
      requires forall c | c in claims :: claims[c].taskId in tasks
      ensures ListsExecuting(Tables(), order)
    {
      order := [];
      var unread := claims.Keys;
      while unread != {}
        invariant unread <= claims.Keys
        invariant forall i, j | 0 <= i < j < |order| :: order[i] != order[j]
        invariant forall c | c in order :: c in claims && c !in unread && tasks[claims[c].taskId].state == Executing
        invariant forall c | c in claims && c !in unread && tasks[claims[c].taskId].state == Executing :: c in order
        decreases unread
      {
        var c :| c in unread;
        unread := unread - {c};
        if tasks[claims[c].taskId].state == Executing {
          order := order + [c];
        }
      }
    }

    /** The body of the sweep: one executing claim. */
    method PromoteIfStale(c: string, now: int) returns (hit: bool)
      requires TaskOf(Tables(), c).Some?
      modifies this`tasks, audit
      ensures hit == Stale(claims[c], now) && Tables() == SweepOne(Environment(), old(Tables()), c, now)
    {
      hide Advance;
      var cutoff := now - HEARTBEAT_SECONDS * MISSED_HEARTBEATS;
      var claim := claims[c];
      if claim.lastHeartbeat.None? {
        return false;
      }
      if claim.lastHeartbeat.value >= cutoff {
        return false;
      }
      Transition(c, tasks[claim.taskId].(state := Supervising), "heartbeat_timeout", COORDINATOR,
                 TimeoutPayload(c, claim.lastHeartbeat.value));
      hit := true;
    }

    method CheckHeartbeats(now: int) returns (promoted: seq<string>, ghost order: seq<string>)
      requires Valid()
      modifies this, audit
      ensures Valid() && served == old(served) + [Call.CheckHeartbeats(order, now)]
      ensures ListsExecuting(old(Tables()), order)
      ensures (Tables(), promoted) == SweepStep(Environment(), old(Tables()), order, now)
    {
      hide SweepStep, SweepOne, Stale, Inv, ListsExecuting, TaskOf, Run;
      ghost var start, env := Tables(), Environment();
      RunKeeps(env, served);
      InvFits(env, start);
      var stale := ExecutingClaims();
      order := stale;
      RunNext(env, served, Call.CheckHeartbeats(order, now));
      served := served + [Call.CheckHeartbeats(order, now)];
      promoted := [];
      SweepNone(env, start, stale, now);
      for i := 0 to |stale|
        invariant served == old(served) + [Call.CheckHeartbeats(order, now)]
        invariant (Tables(), promoted) == SweepStep(env, start, stale[..i], now)
      {
        SweepNext(env, start, stale, i, now);
        ghost var before := promoted;
        var hit := PromoteIfStale(stale[i], now);
        if hit {
          promoted := promoted + [stale[i]];
        }
        assert promoted == before + if hit then [stale[i]] else [];
      }
      assert stale[..|stale|] == stale;
    }

    /** The loop over the submitted evidence: collects verdicts and stores rows as it goes. */
    method ExamineAll(claimId: string, items: seq<Submission>) returns (verdicts: seq<Verdict>, ok: bool)
      requires claimId in claims
      modifies this`evidence
      ensures var exam := Examine(claimId, claims[claimId].workerId, items);
        ok == !exam.failed && (ok ==> verdicts == exam.verdicts) && evidence == old(evidence) + exam.stored
    {
      var worker := claims[claimId].workerId;
      verdicts := [];
      assert items[..0] == [];
      for i := 0 to |items|
        invariant var exam := Examine(claimId, worker, items[..i]);
          !exam.failed && verdicts == exam.verdicts && evidence == old(evidence) + exam.stored
      {
        var s := items[i];
        ExamineNext(claimId, worker, items, i);
        if !s.sigOk {
          verdicts := verdicts + [Verdict(if s.mode == "" then "?" else s.mode, Fail)];
          continue;
        }
        verdicts := verdicts + [Verdict(s.mode, s.verdict)];
        if !KnownMode(s.mode) || s.collectedAt.None? {
          ExamineStopped(claimId, worker, items, i + 1);
          return verdicts, false;
        }
        evidence := evidence + [EvidenceRow(claimId, worker, s.mode, s.kind, s.verdict)];
      }
      assert items[..|items|] == items;
      ok := true;
    }

    method Attest(claimId: string, items: seq<Submission>) returns (reply: Reply)
      requires Valid()
      modifies this, audit
      ensures Valid() && served == old(served) + [Call.Attest(claimId, items)]
      ensures (Tables(), reply) == AttestStep(Environment(), old(Tables()), claimId, items)
    {
      hide Run, Advance, Examine, Evaluate;
      RunNext(Environment(), served, Call.Attest(claimId, items));
      served := served + [Call.Attest(claimId, items)];
      var found := ClaimAndTask(claimId);
      if found.None? {
        return Refused(TaskNotFound);
      }
      var task := found.value;
      if task.state == Voided {
        return Refused(RecheckMaxAttemptsReached);
      }
      if task.state != Executing && task.state != Supervising && task.state != Rechecking {
        return Refused(TaskStateInvalid);
      }
      var verdicts, ok := ExamineAll(claimId, items);
      if !ok {
        return Refused(InvalidEvidence);
      }
      var aggregate := Evaluate(RequirementOf(task), verdicts);
      reply := Decide(claimId, task, aggregate);
    }

    /** Counts and logs the attempt, then routes the task on the aggregate decision. */
    method Decide(claimId: string, task: Task, aggregate: Decision) returns (reply: Reply)
      requires claimId in claims
      modifies this`tasks, audit
      ensures Tables() == Route(Environment(), old(Tables()), claimId, task, aggregate)
      ensures reply == Judged(aggregate, task.attemptsUsed + 1, Remaining(task, task.attemptsUsed + 1))
    {
      hide Advance;
      var claim := claims[claimId];
      var attempt := task.attemptsUsed + 1;
      var remaining := Remaining(task, attempt);
      var task' := task.(state := Attesting, attemptsUsed := attempt);
      Transition(claimId, task', "attestation_attempt", claim.workerId, AttemptPayload(claimId, attempt, aggregate));
      var ref, given := task.descriptor.accountingRef, reasons(|audit.rows|);
      if aggregate == Pass {
        Transition(claimId, task'.(state := Completed), "task_completed", COORDINATOR,
                   CompletedPayload(claimId, claim.taskId, ref));
      } else if aggregate == Fail {
        if remaining > 0 {
          Transition(claimId, task'.(state := Rechecking), "recheck_requested", COORDINATOR,
                     RecheckPayload(claimId, attempt, remaining, given));
        } else {
          Transition(claimId, task'.(state := Voided), "task_voided", COORDINATOR,
                     VoidedPayload(claimId, claim.taskId, attempt, given, ref));
        }
      }
      reply := Judged(aggregate, attempt, remaining);
    }

    method Supervise(claimId: string, reason: string, urgency: string) returns (reply: Reply)
      requires Valid()
      modifies this, audit
      ensures Valid() && served == old(served) + [Call.Supervise(claimId, reason, urgency)]
      ensures (Tables(), reply) == SuperviseStep(Environment(), old(Tables()), claimId, reason, urgency)
    {
      hide Run, Advance;
      RunNext(Environment(), served, Call.Supervise(claimId, reason, urgency));
      served := served + [Call.Supervise(claimId, reason, urgency)];
      var found := ClaimAndTask(claimId);
      if found.None? {
        return Refused(TaskNotFound);
      }
      var task := found.value;
      if task.state != Executing && task.state != Supervising {
        return Refused(TaskStateInvalid);
      }
      var next := Supervising;
      if task.state == Supervising {
        next := Executing;
      }
      Transition(claimId, task.(state := next), "supervision_handoff", claims[claimId].workerId,
                 HandoffPayload(claimId, reason, urgency, next));
      reply := Accepted;
    }

    method Abort(claimId: string, reason: string, snapshot: Dict) returns (reply: Reply)
      requires Valid()
      modifies this, audit
      ensures Valid() && served == old(served) + [Call.Abort(claimId, reason, snapshot)]
      ensures (Tables(), reply) == AbortStep(Environment(), old(Tables()), claimId, reason, snapshot)
    {
      hide Run, Advance;
      RunNext(Environment(), served, Call.Abort(claimId, reason, snapshot));
      served := served + [Call.Abort(claimId, reason, snapshot)];
      var found := ClaimAndTask(claimId);
      if found.None? {
        return Refused(TaskNotFound);
      }
      var task := found.value;
      if task.state == Completed || task.state == Voided || task.state == Aborted {
        return Refused(TaskStateInvalid);
      }
      Transition(claimId, task.(state := Aborted), "task_aborted", claims[claimId].workerId,
                 AbortedPayload(claimId, claims[claimId].taskId, reason, snapshot, task.descriptor.accountingRef));
      reply := Accepted;
    }

    /** The read-only view of a claim's log, or of a task's. */
    method ObserveAudit(claimId: Option<string>, taskId: Option<string>) returns (r: Result<Observation, Error>)
      ensures r.Err? <==> OrEmpty(claimId) == "" && OrEmpty(taskId) == ""
      ensures r.Err? ==> r.error == InvalidParams
      ensures r.Ok? ==>
        var o := r.value;
        && o.entries == (if OrEmpty(claimId) != "" then Chain(audit.rows, claimId.value)
                         else ByTime(TaskRows(audit.rows, taskId.value)))
        && (o.verifyOk.Some? <==> OrEmpty(claimId) != "")
        && (o.verifyOk.Some? ==> (o.verifyOk.value <==> ChainOk(audit.crypto, o.entries)))
        && o.completed == FirstPayload(o.entries, "task_completed")
        && o.voided == FirstPayload(o.entries, "task_voided")
        && o.aborted == FirstPayload(o.entries, "task_aborted")
        && |o.decisions| == Attempts(o.entries) && o.decisions == Decisions(o.entries)
    {
      hide ChainOk, Chain, Attempts, Decisions, FirstPayload, ByTime, TaskRows;
      if OrEmpty(claimId) == "" && OrEmpty(taskId) == "" {
        return Err(InvalidParams);
      }
      var entries, verifyOk := [], None;
      if OrEmpty(claimId) != "" {
        entries := Chain(audit.rows, claimId.value);
        var ok := audit.VerifyChain(claimId.value);
        verifyOk := Some(ok);
      } else {
        entries := ByTime(TaskRows(audit.rows, taskId.value));
      }
      var completed := FindPayload(entries, "task_completed");
      var voided := FindPayload(entries, "task_voided");
      var aborted := FindPayload(entries, "task_aborted");
      var decisions := CollectDecisions(entries);
      r := Ok(Observation(entries, verifyOk, completed, voided, aborted, decisions));
    }
  }

  // ----- reading a log ---------------------------------------------------------------------

  /** What `observe_audit` answers; the number of attempts is that of the decisions. */
  datatype Observation = Observation(entries: seq<Row>, verifyOk: Option<bool>, completed: Option<Dict>,
                                     voided: Option<Dict>, aborted: Option<Dict>, decisions: seq<JSON>)

  /** The rows of a task in the order they were added. */
  function TaskRows(rows: seq<Row>, taskId: string): seq<Row> {
    if rows == [] then []
    else
      var r := rows[|rows| - 1];
      TaskRows(rows[..|rows| - 1], taskId) + (if r.entry.taskId == Some(taskId) then [r] else [])
  }

  /** The payload of the first entry of that type. */
  function FirstPayload(log: seq<Row>, eventType: string): Option<Dict> {
    if log == [] then None
    else if log[0].entry.eventType == eventType then Some(log[0].entry.payload)
    else FirstPayload(log[1..], eventType)
  }

  function DecisionOf(payload: Dict): JSON {
    if "decision" in payload then payload["decision"] else JNull
  }

  /** The decisions of the attempts, in order. */
  function Decisions(log: seq<Row>): seq<JSON> {
    if log == [] then []
    else
      var e := log[|log| - 1].entry;
      Decisions(log[..|log| - 1]) + (if e.eventType == "attestation_attempt" then [DecisionOf(e.payload)] else [])
  }

  method FindPayload(log: seq<Row>, eventType: string) returns (payload: Option<Dict>)
    ensures payload == FirstPayload(log, eventType)
  {
    for i := 0 to |log|
      invariant FirstPayload(log, eventType) == FirstPayload(log[i..], eventType)
    {
      if log[i].entry.eventType == eventType {
        return Some(log[i].entry.payload);
      }
      assert log[i..][1..] == log[i + 1..];
    }
    payload := None;
  }

  method CollectDecisions(log: seq<Row>) returns (decisions: seq<JSON>)
    ensures decisions == Decisions(log) && |decisions| == Attempts(log)
  {
    decisions := [];
    for i := 0 to |log|
      invariant decisions == Decisions(log[..i]) && |decisions| == Attempts(log[..i])
    {
      DecisionsNext(log, i);
      hide Attempts, Decisions;
      if log[i].entry.eventType == "attestation_attempt" {
        decisions := decisions + [DecisionOf(log[i].entry.payload)];
      }
    }
    assert log[..|log|] == log;
  }

  lemma DecisionsNext(log: seq<Row>, i: nat)
    requires i < |log|
    ensures var e := log[i].entry;
      && Attempts(log[..i + 1]) == Attempts(log[..i]) + (if e.eventType == "attestation_attempt" then 1 else 0)
      && Decisions(log[..i + 1])
         == Decisions(log[..i]) + (if e.eventType == "attestation_attempt" then [DecisionOf(e.payload)] else [])
  {
    assert log[..i + 1][..i] == log[..i] && log[..i + 1][i] == log[i];
  }

  lemma {:induction false} FirstPayloadFound(log: seq<Row>, eventType: string)
    ensures FirstPayload(log, eventType).Some? <==> exists i | 0 <= i < |log| :: log[i].entry.eventType == eventType
  {
    if log != [] {
      FirstPayloadFound(log[1..], eventType);
      if FirstPayload(log[1..], eventType).Some? {
        var i :| 0 <= i < |log[1..]| && log[1..][i].entry.eventType == eventType;
        assert log[i + 1].entry.eventType == eventType;
      }
      forall i | 1 <= i < |log| && log[i].entry.eventType == eventType ensures FirstPayload(log, eventType).Some? {
        assert log[1..][i - 1] == log[i];
      }
    }
  }

  /** In a log that tells its task, the terminal payload found is that of the task's state. */
  lemma PayloadTells(log: seq<Row>, task: Task, s: TaskState)
    requires LogOk(log, task) && Terminal(s)
    ensures FirstPayload(log, TerminalName(s)).Some? <==> task.state == s
  {
    FirstPayloadFound(log, TerminalName(s));
    TerminalEntry(log, task);
    TerminalNames(s);
    TerminalNamesDiffer(s, task.state);
    hide LogOk, KindOf, TerminalName;
    forall i | 0 <= i < |log| && log[i].entry.eventType == TerminalName(s) ensures task.state == s {
      assert IsTerminal(log[i]);
      TerminalIsLast(log, task, i);
    }
  }

  lemma TerminalNames(s: TaskState)
    requires Terminal(s)
    ensures KindOf(TerminalName(s)) in {KCompleted, KVoided, KAborted}
  {
  }

  lemma TerminalNamesDiffer(s: TaskState, s': TaskState)
    requires Terminal(s)
    ensures Terminal(s') && TerminalName(s) == TerminalName(s') ==> s == s'
  {
  }

  lemma TerminalIsLast(log: seq<Row>, task: Task, i: nat)
    requires LogOk(log, task) && i < |log| && IsTerminal(log[i])
    ensures i == |log| - 1
  {
  }

  /** Over every run with harmless event names, whoever observes a claim with increasing
      timestamps learns that it verifies, how many attempts its task used, and, by which payload
      is there, whether and how it ended. */
  lemma ObservationIsTruthful(env: Env, calls: seq<Call>, c: string)
    requires Sound(env.crypto) && c in Run(env, calls).claims
    requires HarmlessRun(env, calls)
    requires Increasing(ClaimRows(Run(env, calls).rows, c))
    ensures var w := Run(env, calls);
      var log := Chain(w.rows, c);
      && TaskOf(w, c).Some? && ChainOk(env.crypto, log)
      && Attempts(log) == TaskOf(w, c).value.attemptsUsed
      && forall s | Terminal(s) :: FirstPayload(log, TerminalName(s)).Some? <==> TaskOf(w, c).value.state == s
  {
    RunVerifies(env, calls, c);
    var w := Run(env, calls);
    hide Run, ChainOk, Chain, ClaimRows, Sound, TerminalName;
    forall s | Terminal(s)
      ensures FirstPayload(Chain(w.rows, c), TerminalName(s)).Some? <==> TaskOf(w, c).value.state == s
    {
      PayloadTells(Chain(w.rows, c), TaskOf(w, c).value, s);
    }
  }

  // ----- steps of the loops ----------------------------------------------------------------

  /** A listed claim keeps its task while the sweep goes through the claims before it. */
  lemma SweepNext(env: Env, w: World, order: seq<string>, i: nat, now: int)
    requires Inv(env, w) && ListsExecuting(w, order) && i < |order|
    ensures var (w0, promoted) := SweepStep(env, w, order[..i], now);
      && TaskOf(w0, order[i]).Some? && order[i] in w0.claims
      && SweepStep(env, w, order[..i + 1], now)
         == (SweepOne(env, w0, order[i], now), promoted + if Stale(w0.claims[order[i]], now) then [order[i]] else [])
  {
    SweepPrefixKeeps(env, w, order, i, now);
    assert order[i] in order;
    SweepUnfold(env, w, order, i + 1, now);
  }

  lemma ExamineNext(c: string, worker: string, items: seq<Submission>, i: nat)
    requires i < |items|
    ensures items[..i + 1][..i] == items[..i] && items[..i + 1][i] == items[i]
    ensures |items[..i + 1]| == i + 1
  {
  }

  /** Once the loop has stopped, the rest of the evidence changes nothing. */
  lemma {:induction false} ExamineStopped(c: string, worker: string, items: seq<Submission>, i: nat)
    requires i <= |items| && Examine(c, worker, items[..i]).failed
    ensures Examine(c, worker, items) == Examine(c, worker, items[..i])
    decreases |items|
  {
    if i == |items| {
      assert items[..i] == items;
    } else {
      var init := items[..|items| - 1];
      assert init[..i] == items[..i];
      ExamineStopped(c, worker, init, i);
    }
  }

  /** The payload found is that of the first entry of the type, if there is one. */
  lemma {:induction false} FirstPayloadExactly(log: seq<Row>, eventType: string)
    ensures FirstPayload(log, eventType).None? <==> forall i | 0 <= i < |log| :: log[i].entry.eventType != eventType
    ensures forall i | 0 <= i < |log| && log[i].entry.eventType == eventType
                       && (forall j | 0 <= j < i :: log[j].entry.eventType != eventType) ::
      FirstPayload(log, eventType) == Some(log[i].entry.payload)
  {
    if log != [] {
      var rest := log[1..];
      FirstPayloadExactly(rest, eventType);
      assert forall i | 1 <= i < |log| :: log[i] == rest[i - 1];
      assert forall i | 0 <= i < |rest| :: rest[i] == log[i + 1];
      if log[0].entry.eventType != eventType {
        forall i | 0 <= i < |log| && log[i].entry.eventType == eventType
                   && (forall j | 0 <= j < i :: log[j].entry.eventType != eventType)
          ensures FirstPayload(log, eventType) == Some(log[i].entry.payload)
        {
          forall j | 0 <= j < i - 1 ensures rest[j].entry.eventType != eventType {
            assert rest[j] == log[j + 1];
          }
          assert rest[i - 1].entry.eventType == eventType;
        }
      }
    }
  }
}
