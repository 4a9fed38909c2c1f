/**
 The task lifecycle of the coordinator as a state machine over its tables: what each
 remote call does, and what it answers.
*/
module Lifecycle {
  import opened Basics
  import opened JsonText
  import opened AuditChain
  import opened Threshold

  datatype TaskState =
    Posted | Claimed | Executing | Supervising | Attesting | Rechecking | Completed | Voided | Aborted

  predicate Terminal(s: TaskState) { s == Completed || s == Voided || s == Aborted }

  datatype Descriptor = Descriptor(
    postedBy: string, descriptorType: string,
    hasSettlement: bool, hasLegacyOverride: bool, subcontract: bool,
    requirement: Option<Requirement>, evidenceSchema: seq<(string, seq<string>)>,
    maxAttempts: Option<int>, accountingRef: JSON,
    continuationOf: Option<JSON>, informational: Option<JSON>)

  datatype Task = Task(descriptor: Descriptor, expiry: int, state: TaskState, attemptsUsed: nat)

  datatype Claim = Claim(taskId: string, workerId: string, bid: Option<string>, accepted: bool,
                         lastHeartbeat: Option<int>)

  datatype EvidenceRow = EvidenceRow(claimId: string, workerId: string, mode: string, kind: string, decision: Decision)

  /** One submitted piece of evidence, with what its signature check and `verify_single`
      answer. An absent mode is the empty string. */
  datatype Submission = Submission(mode: string, kind: string, collectedAt: Option<int>, sigOk: bool, verdict: Decision)

  datatype Acceptance = Incomplete | Forged | Signed

  datatype World = World(workers: map<string, string>, tasks: map<string, Task>, claims: map<string, Claim>,
                         evidence: seq<EvidenceRow>, rows: seq<Row>)

  /** What the coordinator runs against: hash and signer, the clock's reading at each append,
      the reasons the verifiers give at each append, the resolver, and the registry of
      evidence kinds. */
  datatype Env = Env(crypto: Crypto, clock: nat -> int, reasons: nat -> seq<string>, resolves: string -> bool,
                     registry: map<string, set<string>>)

  datatype Error =
    | TaskNotFound | TaskPreempted | TaskStateInvalid | RecheckMaxAttemptsReached
    | InvalidDescriptor | InvalidRequirement | OutOfScope | SubcontractForbidden | InvalidParams
    | DidNotResolved | PolicyViolation | Unauthenticated | InvalidEvidence | Unreadable | IntegrityError

  datatype Reply =
    | Accepted
    | Judged(decision: Decision, attemptNumber: nat, attemptsRemaining: nat)
    | Promoted(claimIds: seq<string>)
    | Refused(error: Error)

  const HEARTBEAT_SECONDS := 15
  const MISSED_HEARTBEATS := 3
  const COORDINATOR := "did:wcp:coordinator"

  // ----- names and payloads written to the log ---------------------------------------------

  function StateName(s: TaskState): string {
    match s
    case Posted => "posted"
    case Claimed => "claimed"
    case Executing => "executing"
    case Supervising => "supervising"
    case Attesting => "attesting"
    case Rechecking => "rechecking"
    case Completed => "completed"
    case Voided => "voided"
    case Aborted => "aborted"
  }

  function DecisionName(d: Decision): string {
    match d case Pass => "pass" case Review => "review" case Fail => "fail"
  }

  function PostedPayload(taskId: string, d: Descriptor): Dict {
    map["task_id" := JString(taskId), "accounting_ref" := d.accountingRef]
    + (match d.informational case None => map[] case Some(v) => map["informational" := v])
    + (match d.continuationOf case None => map[] case Some(v) => map["continuation_of" := v])
  }

  function ClaimedPayload(taskId: string, claimId: string, bid: Option<string>): Dict {
    map["task_id" := JString(taskId), "claim_id" := JString(claimId), "bid" := OptionJson(bid)]
  }

  function StartedPayload(claimId: string, sessionId: string): Dict {
    map["claim_id" := JString(claimId), "session_id" := JString(sessionId)]
  }

  function TimeoutPayload(claimId: string, lastHeartbeat: int): Dict {
    map["claim_id" := JString(claimId), "last_heartbeat_at" := JInt(lastHeartbeat),
        "handoff_reason" := JString("connectivity_lost")]
  }

  function AttemptPayload(claimId: string, attempt: nat, d: Decision): Dict {
    map["claim_id" := JString(claimId), "attempt_number" := JInt(attempt), "decision" := JString(DecisionName(d))]
  }

  function CompletedPayload(claimId: string, taskId: string, accountingRef: JSON): Dict {
    map["claim_id" := JString(claimId), "task_id" := JString(taskId), "accounting_ref" := accountingRef]
  }

  function StringsJson(ss: seq<string>): JSON {
    JArray(seq(|ss|, i requires 0 <= i < |ss| => JString(ss[i])))
  }

  function RecheckPayload(claimId: string, attempt: nat, remaining: nat, reasons: seq<string>): Dict {
    map["claim_id" := JString(claimId), "attempt_number_just_failed" := JInt(attempt),
        "attempts_remaining" := JInt(remaining), "verifier_reasons" := StringsJson(reasons)]
  }

  function VoidedPayload(claimId: string, taskId: string, attempt: nat, reasons: seq<string>,
                         accountingRef: JSON): Dict {
    map["claim_id" := JString(claimId), "task_id" := JString(taskId), "attempts_used" := JInt(attempt),
        "verifier_reasons" := StringsJson(reasons), "accounting_ref" := accountingRef]
  }

  function HandoffPayload(claimId: string, reason: string, urgency: string, newState: TaskState): Dict {
    map["claim_id" := JString(claimId), "handoff_reason" := JString(reason), "urgency" := JString(urgency),
        "new_state" := JString(StateName(newState))]
  }

  function AbortedPayload(claimId: string, taskId: string, reason: string, snapshot: Dict, accountingRef: JSON): Dict {
    map["claim_id" := JString(claimId), "task_id" := JString(taskId), "reason" := JString(reason),
        "state_snapshot" := JObject(snapshot), "accounting_ref" := accountingRef]
  }

  // ----- building blocks ---------------------------------------------------------------------

  ghost function Log(env: Env, w: World, eventType: string, actor: string, payload: Dict,
                     claimId: Option<string>, taskId: string): World
  {
    var e := Entry(eventType, actor, payload, claimId, Some(taskId), env.clock(|w.rows|));
    w.(rows := w.rows + [MakeRow(env.crypto, w.rows, e)])
  }

  /** The task a claim is for; None when the claim or its task is missing. */
  function TaskOf(w: World, claimId: string): Option<Task> {
    if claimId in w.claims && w.claims[claimId].taskId in w.tasks
    then Some(w.tasks[w.claims[claimId].taskId]) else None
  }

  /** Stores a new version of the claim's task and logs why. */
  ghost function Advance(env: Env, w: World, claimId: string, task: Task,
                         eventType: string, actor: string, payload: Dict): World
    requires claimId in w.claims
  {
    var taskId := w.claims[claimId].taskId;
    Log(env, w.(tasks := w.tasks[taskId := task]), eventType, actor, payload, Some(claimId), taskId)
  }

  // ----- tasks/post --------------------------------------------------------------------------

  function KindsRegistered(registry: map<string, set<string>>, schema: seq<(string, seq<string>)>): bool {
    forall entry, k | entry in schema && k in entry.1 :: entry.0 in registry && k in registry[entry.0]
  }

  predicate ValidRequirement(registry: map<string, set<string>>, d: Descriptor) {
    && d.requirement.Some?
    && var req := d.requirement.value;
    && req.modes != []
    && (req.threshold == Some("any") || req.threshold == Some("all") || req.threshold == Some("M-of-N"))
    && (req.threshold == Some("M-of-N") ==> req.m.Some? && req.n.Some? && req.m.value <= req.n.value)
    && KindsRegistered(registry, d.evidenceSchema)
  }

  predicate OutOfScopeType(descriptorType: string) {
    descriptorType in ["medical", "defense", "minor_involving", "hazmat_above_consumer"]
  }

  /** Why a post is refused, in the order the checks are made. */
  function PostError(env: Env, d: Descriptor): Option<Error> {
    if d.hasSettlement || d.hasLegacyOverride then Some(InvalidDescriptor)
    else if !ValidRequirement(env.registry, d) then Some(InvalidRequirement)
    else if OutOfScopeType(d.descriptorType) then Some(OutOfScope)
    else if d.subcontract then Some(SubcontractForbidden)
    else if d.postedBy == "" then Some(InvalidParams)
    else if !env.resolves(d.postedBy) then Some(DidNotResolved)
    else None
  }

  ghost function PostStep(env: Env, w: World, taskId: string, d: Descriptor, expiry: Option<int>): (World, Reply) {
    match PostError(env, d)
    case Some(e) => (w, Refused(e))
    case None =>
      if expiry.None? then (w, Refused(Unreadable))
      else if taskId in w.tasks then (w, Refused(IntegrityError))
      else
        var w' := w.(tasks := w.tasks[taskId := Task(d, expiry.value, Posted, 0)]);
        (Log(env, w', "task_posted", d.postedBy, PostedPayload(taskId, d), None, taskId), Accepted)
  }

  // ----- tasks/claim -------------------------------------------------------------------------

  /** Some accepted claim for the task is already stored. */
  predicate HasAcceptedClaim(claims: map<string, Claim>, taskId: string) {
    exists c | c in claims :: claims[c].taskId == taskId && claims[c].accepted
  }

  function ClaimError(w: World, taskId: string, workerId: string, etaOk: bool, acceptance: Acceptance,
                      claimId: string, now: int)
    : Option<Error>
  {
    if taskId !in w.tasks then Some(TaskNotFound)
    else
      var task := w.tasks[taskId];
      if task.state != Posted then Some(if task.state == Claimed then TaskPreempted else TaskStateInvalid)
      else if task.expiry < now then Some(TaskStateInvalid)
      else if workerId !in w.workers then Some(DidNotResolved)
      else if task.descriptor.postedBy == w.workers[workerId]
              && !(task.descriptor.requirement.Some?
                   && "third-party-witness" in task.descriptor.requirement.value.modes) then Some(PolicyViolation)
      else if acceptance != Signed then Some(Unauthenticated)
      else if HasAcceptedClaim(w.claims, taskId) then Some(TaskPreempted)
      else if !etaOk then Some(Unreadable)
      else if claimId == "" || claimId in w.claims then Some(IntegrityError)
      else None
  }

  ghost function ClaimStep(env: Env, w: World, taskId: string, workerId: string, bid: Option<string>,
                           etaOk: bool, acceptance: Acceptance, claimId: string, now: int): (World, Reply)
  {
    match ClaimError(w, taskId, workerId, etaOk, acceptance, claimId, now)
    case Some(e) => (w, Refused(e))
    case None =>
      var w' := w.(claims := w.claims[claimId := Claim(taskId, workerId, bid, true, Some(now))]);
      (Advance(env, w', claimId, w.tasks[taskId].(state := Claimed),
               "task_claimed", workerId, ClaimedPayload(taskId, claimId, bid)), Accepted)
  }

  // ----- tasks/execute -----------------------------------------------------------------------

  ghost function OpenStep(env: Env, w: World, claimId: string, sessionId: string): (World, Reply) {
    match TaskOf(w, claimId)
    case None => (w, Refused(TaskNotFound))
    case Some(task) =>
      if task.state != Claimed && task.state != Supervising then (w, Refused(TaskStateInvalid))
      else
        (Advance(env, w, claimId, task.(state := Executing),
                 "execution_started", w.claims[claimId].workerId, StartedPayload(claimId, sessionId)), Accepted)
  }

  ghost function EventStep(env: Env, w: World, claimId: string, eventType: string, time: Option<int>, payload: Dict,
                           sigOk: bool): (World, Reply)
  {
    match TaskOf(w, claimId)
    case None => (w, Refused(TaskNotFound))
    case Some(task) =>
      if task.state != Executing then (w, Refused(TaskStateInvalid))
      else if !sigOk then (w, Refused(Unauthenticated))
      else if eventType == "heartbeat" && time.None? then (w, Refused(Unreadable))
      else
        var claim := w.claims[claimId];
        var w' := if eventType == "heartbeat"
                  then w.(claims := w.claims[claimId := claim.(lastHeartbeat := time)]) else w;
        (Advance(env, w', claimId, task, eventType, claim.workerId, payload), Accepted)
  }

  // ----- heartbeat sweep ---------------------------------------------------------------------

  /** `order` lists the claims of executing tasks, each once, in the order the query chose. */
  predicate ListsExecuting(w: World, order: seq<string>) {
    && (forall i, j | 0 <= i < j < |order| :: order[i] != order[j])
    && (forall c | c in order :: TaskOf(w, c).Some? && TaskOf(w, c).value.state == Executing)
    && (forall c | c in w.claims :: TaskOf(w, c).Some? && TaskOf(w, c).value.state == Executing ==> c in order)
  }

  predicate Stale(claim: Claim, now: int) {
    claim.lastHeartbeat.Some? && claim.lastHeartbeat.value < now - HEARTBEAT_SECONDS * MISSED_HEARTBEATS
  }

  ghost function SweepStep(env: Env, w: World, order: seq<string>, now: int): (r: (World, seq<string>))
    ensures r.0.claims == w.claims
  {
    if order == [] then (w, [])
    else
      var (w', promoted) := SweepStep(env, w, order[..|order| - 1], now);
      var c := order[|order| - 1];
      match TaskOf(w', c)
      case None => (w', promoted)
      case Some(task) =>
        if !Stale(w'.claims[c], now) then (w', promoted)
        else
          (Advance(env, w', c, task.(state := Supervising), "heartbeat_timeout", COORDINATOR,
                   TimeoutPayload(c, w'.claims[c].lastHeartbeat.value)), promoted + [c])
  }

  // ----- tasks/attest ------------------------------------------------------------------------

  predicate KnownMode(mode: string) {
    mode in ["sensor-witness", "third-party-witness", "cryptographic-presence", "owner-sign-off"]
  }

  /** What the loop over the submitted evidence has done: verdicts collected, rows stored,
      and whether it stopped on an item whose row cannot be built. */
  datatype Exam = Exam(verdicts: seq<Verdict>, stored: seq<EvidenceRow>, failed: bool)

  function Examine(claimId: string, workerId: string, items: seq<Submission>): Exam {
    if items == [] then Exam([], [], false)
    else
      var e := Examine(claimId, workerId, items[..|items| - 1]);
      var s := items[|items| - 1];
      if e.failed then e
      else if !s.sigOk then e.(verdicts := e.verdicts + [Verdict(if s.mode == "" then "?" else s.mode, Fail)])
      else if !KnownMode(s.mode) || s.collectedAt.None? then e.(failed := true)
      else Exam(e.verdicts + [Verdict(s.mode, s.verdict)],
                e.stored + [EvidenceRow(claimId, workerId, s.mode, s.kind, s.verdict)], false)
  }

  /** `int(max_attestation_attempts or 1)` */
  function MaxAttempts(d: Descriptor): int {
    match d.maxAttempts
    case None => 1
    case Some(n) => if n == 0 then 1 else n
  }

  function RequirementOf(task: Task): Requirement {
    match task.descriptor.requirement
    case None => Requirement([], None, None, None)
    case Some(r) => r
  }

  function Remaining(task: Task, attempt: nat): nat {
    if MaxAttempts(task.descriptor) > attempt then MaxAttempts(task.descriptor) - attempt else 0
  }

  /** Logging the attempt and routing on the aggregate decision. */
  ghost function Route(env: Env, w: World, claimId: string, task: Task, d: Decision): World
    requires claimId in w.claims
  {
    var claim, n := w.claims[claimId], task.attemptsUsed + 1;
    var task' := task.(state := Attesting, attemptsUsed := n);
    var w' := Advance(env, w, claimId, task', "attestation_attempt", claim.workerId, AttemptPayload(claimId, n, d));
    var ref, remaining := task.descriptor.accountingRef, Remaining(task, n);
    match d
    case Review => w'
    case Pass =>
      Advance(env, w', claimId, task'.(state := Completed), "task_completed", COORDINATOR,
              CompletedPayload(claimId, claim.taskId, ref))
    case Fail =>
      if remaining > 0 then
        Advance(env, w', claimId, task'.(state := Rechecking), "recheck_requested", COORDINATOR,
                RecheckPayload(claimId, n, remaining, env.reasons(|w'.rows|)))
      else
        Advance(env, w', claimId, task'.(state := Voided), "task_voided", COORDINATOR,
                VoidedPayload(claimId, claim.taskId, n, env.reasons(|w'.rows|), ref))
  }

  predicate CanAttest(s: TaskState) { s == Executing || s == Supervising || s == Rechecking }

  ghost function AttestStep(env: Env, w: World, claimId: string, items: seq<Submission>): (World, Reply) {
    match TaskOf(w, claimId)
    case None => (w, Refused(TaskNotFound))
    case Some(task) =>
      if task.state == Voided then (w, Refused(RecheckMaxAttemptsReached))
      else if !CanAttest(task.state) then (w, Refused(TaskStateInvalid))
      else
        var exam := Examine(claimId, w.claims[claimId].workerId, items);
        var w' := w.(evidence := w.evidence + exam.stored);
        if exam.failed then (w', Refused(InvalidEvidence))
        else
          var d, n := Evaluate(RequirementOf(task), exam.verdicts), task.attemptsUsed + 1;
          (Route(env, w', claimId, task, d), Judged(d, n, Remaining(task, n)))
  }

  // ----- tasks/supervise and tasks/abort -------------------------------------------------------

  ghost function SuperviseStep(env: Env, w: World, claimId: string, reason: string, urgency: string): (World, Reply) {
    match TaskOf(w, claimId)
    case None => (w, Refused(TaskNotFound))
    case Some(task) =>
      if task.state != Executing && task.state != Supervising then (w, Refused(TaskStateInvalid))
      else
        var s := if task.state == Executing then Supervising else Executing;
        (Advance(env, w, claimId, task.(state := s), "supervision_handoff", w.claims[claimId].workerId,
                 HandoffPayload(claimId, reason, urgency, s)), Accepted)
  }

  ghost function AbortStep(env: Env, w: World, claimId: string, reason: string, snapshot: Dict): (World, Reply) {
    match TaskOf(w, claimId)
    case None => (w, Refused(TaskNotFound))
    case Some(task) =>
      if Terminal(task.state) then (w, Refused(TaskStateInvalid))
      else
        var claim := w.claims[claimId];
        (Advance(env, w, claimId, task.(state := Aborted), "task_aborted", claim.workerId,
                 AbortedPayload(claimId, claim.taskId, reason, snapshot, task.descriptor.accountingRef)), Accepted)
  }

  // ----- runs ------------------------------------------------------------------------------------

  datatype Call =
    | UpsertWorker(workerId: string, principal: string)
    | Post(taskId: string, descriptor: Descriptor, expiry: Option<int>)
    | ClaimTask(taskId: string, workerId: string, bid: Option<string>, etaOk: bool, acceptance: Acceptance,
                newClaim: string, now: int)
    | ExecuteOpen(claimId: string, sessionId: string)
    | ExecuteEvent(claimId: string, eventType: string, time: Option<int>, payload: Dict, sigOk: bool)
    | CheckHeartbeats(order: seq<string>, now: int)
    | Attest(claimId: string, items: seq<Submission>)
    | Supervise(claimId: string, reason: string, urgency: string)
    | Abort(claimId: string, reason: string, snapshot: Dict)

  /** One call. A sweep whose `order` is not what the query could answer does nothing. */
  ghost function Step(env: Env, w: World, call: Call): (World, Reply) {
    match call
    case UpsertWorker(worker, principal) => (w.(workers := w.workers[worker := principal]), Accepted)
    case Post(taskId, d, expiry) => PostStep(env, w, taskId, d, expiry)
    case ClaimTask(taskId, worker, bid, etaOk, acceptance, newClaim, now) =>
      ClaimStep(env, w, taskId, worker, bid, etaOk, acceptance, newClaim, now)
    case ExecuteOpen(c, session) => OpenStep(env, w, c, session)
    case ExecuteEvent(c, eventType, time, payload, sigOk) => EventStep(env, w, c, eventType, time, payload, sigOk)
    case CheckHeartbeats(order, now) =>
      if !ListsExecuting(w, order) then (w, Refused(InvalidParams))
      else
        var (w', promoted) := SweepStep(env, w, order, now);
        (w', Promoted(promoted))
    case Attest(c, items) => AttestStep(env, w, c, items)
    case Supervise(c, reason, urgency) => SuperviseStep(env, w, c, reason, urgency)
    case Abort(c, reason, snapshot) => AbortStep(env, w, c, reason, snapshot)
  }

  const EMPTY := World(map[], map[], map[], [], [])

  ghost function Run(env: Env, calls: seq<Call>): World {
    if calls == [] then EMPTY
    else Step(env, Run(env, calls[..|calls| - 1]), calls[|calls| - 1]).0
  }
}
