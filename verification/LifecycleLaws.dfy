/** Each remote call told by its conditions and effects in full, apart from the steps. */
module LifecycleLaws {
  import opened Basics
  import opened JsonText
  import opened AuditChain
  import opened AuditProofs
  import opened Threshold
  import opened Lifecycle
  import opened LifecycleInvariants
  import opened LifecycleLog
  import opened LifecycleRuns

  // ----- when calls are accepted -------------------------------------------------------------

  /** A requirement that can be met by registered kinds of evidence. */
  ghost predicate Requirable(env: Env, d: Descriptor) {
    && d.requirement.Some? && d.requirement.value.modes != []
    && (|| d.requirement.value.threshold == Some("any") || d.requirement.value.threshold == Some("all")
        || (d.requirement.value.threshold == Some("M-of-N") && d.requirement.value.m.Some?
            && d.requirement.value.n.Some? && d.requirement.value.m.value <= d.requirement.value.n.value))
    && (forall i, k | 0 <= i < |d.evidenceSchema| && k in d.evidenceSchema[i].1 ::
          d.evidenceSchema[i].0 in env.registry && k in env.registry[d.evidenceSchema[i].0])
  }

  predicate InScope(descriptorType: string) {
    && descriptorType != "medical" && descriptorType != "defense"
    && descriptorType != "minor_involving" && descriptorType != "hazmat_above_consumer"
  }

  ghost predicate Postable(env: Env, w: World, taskId: string, d: Descriptor, expiry: Option<int>) {
    && !d.hasSettlement && !d.hasLegacyOverride && !d.subcontract && Requirable(env, d) && InScope(d.descriptorType)
    && d.postedBy != "" && env.resolves(d.postedBy) && expiry.Some? && taskId !in w.tasks
  }

  lemma RequirableExactly(env: Env, d: Descriptor)
    ensures ValidRequirement(env.registry, d) <==> Requirable(env, d)
  {
    if KindsRegistered(env.registry, d.evidenceSchema) {
      forall i, k | 0 <= i < |d.evidenceSchema| && k in d.evidenceSchema[i].1
        ensures d.evidenceSchema[i].0 in env.registry && k in env.registry[d.evidenceSchema[i].0]
      {
        assert d.evidenceSchema[i] in d.evidenceSchema;
      }
    }
  }

  /** A post is accepted exactly under these conditions, and stores a new posted task. */
  lemma PostExactly(env: Env, w: World, taskId: string, d: Descriptor, expiry: Option<int>)
    ensures var (w', reply) := PostStep(env, w, taskId, d, expiry);
      && (reply == Accepted <==> Postable(env, w, taskId, d, expiry))
      && (reply != Accepted ==> reply.Refused? && w' == w)
      && (reply == Accepted ==>
          w' == World(w.workers, w.tasks[taskId := Task(d, expiry.value, Posted, 0)], w.claims, w.evidence, w'.rows))
  {
    RequirableExactly(env, d);
    hide MakeRow, PostedPayload, ValidRequirement, Requirable;
  }

  ghost predicate Claimable(w: World, taskId: string, worker: string, etaOk: bool, acceptance: Acceptance,
                            newClaim: string, now: int)
  {
    && taskId in w.tasks && w.tasks[taskId].state == Posted && now <= w.tasks[taskId].expiry
    && worker in w.workers && acceptance == Signed && etaOk
    && (forall c | c in w.claims && w.claims[c].accepted :: w.claims[c].taskId != taskId)
    && newClaim != "" && newClaim !in w.claims
    && (w.tasks[taskId].descriptor.postedBy == w.workers[worker] ==>
          w.tasks[taskId].descriptor.requirement.Some?
          && "third-party-witness" in w.tasks[taskId].descriptor.requirement.value.modes)
  }

  /** A claim is accepted exactly under these conditions: above all the task has not expired, and
      nobody works for the one who posted it unless a third party is to witness. */
  lemma ClaimExactly(env: Env, w: World, taskId: string, worker: string, bid: Option<string>, etaOk: bool,
                     acceptance: Acceptance, newClaim: string, now: int)
    ensures var (w', reply) := ClaimStep(env, w, taskId, worker, bid, etaOk, acceptance, newClaim, now);
      && (reply == Accepted <==> Claimable(w, taskId, worker, etaOk, acceptance, newClaim, now))
      && (reply != Accepted ==> reply.Refused? && w' == w)
      && (reply == Accepted ==>
          w' == World(w.workers, w.tasks[taskId := w.tasks[taskId].(state := Claimed)],
                      w.claims[newClaim := Claim(taskId, worker, bid, true, Some(now))], w.evidence, w'.rows))
  {
    hide MakeRow, ClaimedPayload;
  }

  ghost predicate InState(w: World, c: string, states: set<TaskState>) {
    c in w.claims && w.claims[c].taskId in w.tasks && w.tasks[w.claims[c].taskId].state in states
  }

  /** The tables with the state of the claim's task changed, but for the log. */
  ghost predicate Became(w: World, w': World, c: string, s: TaskState)
    requires c in w.claims && w.claims[c].taskId in w.tasks
  {
    w' == World(w.workers, w.tasks[w.claims[c].taskId := w.tasks[w.claims[c].taskId].(state := s)], w.claims,
                w.evidence, w'.rows)
  }

  /** Opening: from CLAIMED or SUPERVISING, to EXECUTING. */
  lemma OpenExactly(env: Env, w: World, c: string, session: string)
    ensures var (w', reply) := OpenStep(env, w, c, session);
      && (reply == Accepted <==> InState(w, c, {Claimed, Supervising}))
      && (if reply == Accepted then Became(w, w', c, Executing) else reply.Refused? && w' == w)
  {
    hide MakeRow, StartedPayload;
  }

  /** Supervision: toggles EXECUTING and SUPERVISING. */
  lemma SuperviseExactly(env: Env, w: World, c: string, reason: string, urgency: string)
    ensures var (w', reply) := SuperviseStep(env, w, c, reason, urgency);
      && (reply == Accepted <==> InState(w, c, {Executing, Supervising}))
      && (if reply == Accepted then Became(w, w', c, if InState(w, c, {Executing}) then Supervising else Executing)
          else reply.Refused? && w' == w)
  {
    hide MakeRow, HandoffPayload;
  }

  /** Aborting: from every state but the three terminal ones. */
  lemma AbortExactly(env: Env, w: World, c: string, reason: string, snapshot: Dict)
    ensures var (w', reply) := AbortStep(env, w, c, reason, snapshot);
      && (reply == Accepted <==>
          InState(w, c, {Posted, Claimed, Executing, Supervising, Attesting, Rechecking}))
      && (if reply == Accepted then Became(w, w', c, Aborted) else reply.Refused? && w' == w)
  {
    hide MakeRow, AbortedPayload;
  }

  /** A worker's event: while EXECUTING, signed, and, for a heartbeat, with a time that can be read,
      which is then the claim's last heartbeat. Nothing else changes but the log. */
  lemma EventAcceptedExactly(env: Env, w: World, c: string, eventType: string, time: Option<int>, payload: Dict,
                             sigOk: bool)
    ensures var (w', reply) := EventStep(env, w, c, eventType, time, payload, sigOk);
      && (reply == Accepted <==>
          InState(w, c, {Executing}) && sigOk && (eventType == "heartbeat" ==> time.Some?))
      && (reply != Accepted ==> reply.Refused? && w' == w)
      && (reply == Accepted ==>
          w' == World(w.workers, w.tasks,
                      if eventType == "heartbeat" then w.claims[c := w.claims[c].(lastHeartbeat := time)] else w.claims,
                      w.evidence, w'.rows))
  {
    hide MakeRow;
    if InState(w, c, {Executing}) {
      assert w.tasks[w.claims[c].taskId := w.tasks[w.claims[c].taskId]] == w.tasks;
    }
  }

  // ----- why calls are refused ------------------------------------------------------------------

  /** A refused post names the first of its conditions that fails. */
  lemma PostRefusals(env: Env, w: World, taskId: string, d: Descriptor, expiry: Option<int>)
    requires !Postable(env, w, taskId, d, expiry)
    ensures PostStep(env, w, taskId, d, expiry).1 == Refused(
      if d.hasSettlement || d.hasLegacyOverride then InvalidDescriptor
      else if !Requirable(env, d) then InvalidRequirement
      else if !InScope(d.descriptorType) then OutOfScope
      else if d.subcontract then SubcontractForbidden
      else if d.postedBy == "" then InvalidParams
      else if !env.resolves(d.postedBy) then DidNotResolved
      else if expiry.None? then Unreadable
      else IntegrityError)
  {
    RequirableExactly(env, d);
    hide MakeRow, PostedPayload, ValidRequirement, Requirable;
  }

  lemma ClaimRefusals(env: Env, w: World, taskId: string, worker: string, bid: Option<string>, etaOk: bool,
                      acceptance: Acceptance, newClaim: string, now: int)
    requires !Claimable(w, taskId, worker, etaOk, acceptance, newClaim, now)
    ensures var error := ClaimStep(env, w, taskId, worker, bid, etaOk, acceptance, newClaim, now).1.error;
      && (error == TaskNotFound <==> taskId !in w.tasks)
      && (taskId in w.tasks ==>
          && (w.tasks[taskId].state == Claimed ==> error == TaskPreempted)
          && (error == TaskStateInvalid <==>
              w.tasks[taskId].state !in {Posted, Claimed}
              || (w.tasks[taskId].state == Posted && w.tasks[taskId].expiry < now))
          && (w.tasks[taskId].state == Posted && now <= w.tasks[taskId].expiry ==>
              && (error == DidNotResolved <==> worker !in w.workers)
              && (error == PolicyViolation ==>
                  worker in w.workers && w.tasks[taskId].descriptor.postedBy == w.workers[worker])
              && (error == Unauthenticated ==> acceptance != Signed)
              && (error == Unreadable ==> !etaOk)))
  {
    hide MakeRow, ClaimedPayload;
  }

  /** The other calls: an unknown claim, and a state that does not allow the call. */
  lemma StateRefusals(env: Env, w: World, call: Call)
    requires call.ExecuteOpen? || call.ExecuteEvent? || call.Attest? || call.Supervise? || call.Abort?
    ensures var reply := Step(env, w, call).1;
      && (reply == Refused(TaskNotFound) <==> call.claimId !in w.claims || w.claims[call.claimId].taskId !in w.tasks)
      && (reply == Refused(TaskStateInvalid) ==> TaskOf(w, call.claimId).Some?)
      && (reply == Refused(RecheckMaxAttemptsReached) <==> call.Attest? && InState(w, call.claimId, {Voided}))
      && (reply == Refused(Unauthenticated) <==>
          call.ExecuteEvent? && InState(w, call.claimId, {Executing}) && !call.sigOk)
      && (reply == Refused(Unreadable) <==>
          call.ExecuteEvent? && InState(w, call.claimId, {Executing}) && call.sigOk
          && call.eventType == "heartbeat" && call.time.None?)
  {
    hide Advance, Route, Evaluate, Examine;
  }

  // ----- the recheck bound -----------------------------------------------------------------------

  /** Over every run, for every task: attempts stay within the maximum of its descriptor (1 where that
      names none above it), are 0 before attestation, below the maximum while rechecking, and
      exactly the maximum when voided. */
  lemma AttemptBound(env: Env, calls: seq<Call>, taskId: string)
    requires taskId in Run(env, calls).tasks
    ensures var t := Run(env, calls).tasks[taskId];
      var most: int := if t.descriptor.maxAttempts.Some? && t.descriptor.maxAttempts.value > 1
                       then t.descriptor.maxAttempts.value else 1;
      && 0 <= t.attemptsUsed <= most
      && (t.state in {Posted, Claimed, Executing, Supervising} ==> t.attemptsUsed == 0)
      && (t.state == Rechecking ==> 0 < t.attemptsUsed < most)
      && (t.state in {Attesting, Completed} ==> 0 < t.attemptsUsed)
      && (t.state == Voided ==> t.attemptsUsed == most)
  {
    hide Run;
    RunKeeps(env, calls);
    InvParts(env, Run(env, calls));
    assert TaskOk(Run(env, calls).tasks[taskId]);
  }

  // ----- heartbeats ----------------------------------------------------------------------------

  /** Call number `n` shows the claim alive at `t`: it makes the claim, or is its heartbeat. */
  ghost predicate BeatAt(env: Env, calls: seq<Call>, n: nat, c: string, t: int)
    requires n < |calls|
  {
    && Step(env, Run(env, calls[..n]), calls[n]).1 == Accepted
    && ((calls[n].ClaimTask? && calls[n].newClaim == c && calls[n].now == t)
        || (calls[n].ExecuteEvent? && calls[n].claimId == c && calls[n].eventType == "heartbeat"
            && calls[n].time == Some(t)))
  }

  /** The call shows the claim alive, at some time. */
  ghost predicate Beats(env: Env, w: World, call: Call, c: string) {
    && Step(env, w, call).1 == Accepted
    && ((call.ClaimTask? && call.newClaim == c)
        || (call.ExecuteEvent? && call.claimId == c && call.eventType == "heartbeat"))
  }

  lemma BeatStep(env: Env, w: World, call: Call, c: string)
    ensures var w' := Step(env, w, call).0;
      && (call.ClaimTask? && Beats(env, w, call, c) ==> c in w'.claims && w'.claims[c].lastHeartbeat == Some(call.now))
      && (call.ExecuteEvent? && Beats(env, w, call, c) ==>
          c in w'.claims && w'.claims[c].lastHeartbeat == call.time && call.time.Some?)
      && (!Beats(env, w, call, c) ==>
          (c in w'.claims <==> c in w.claims) && (c in w.claims ==> w'.claims[c] == w.claims[c]))
  {
    match call
    case ClaimTask(taskId, worker, bid, etaOk, acceptance, newClaim, now) =>
      hide ClaimStep;
      ClaimExactly(env, w, taskId, worker, bid, etaOk, acceptance, newClaim, now);
    case ExecuteEvent(d, eventType, time, payload, sigOk) =>
      hide EventStep;
      EventAcceptedExactly(env, w, d, eventType, time, payload, sigOk);
    case _ => OthersKeepClaims(env, w, call);
  }

  lemma OthersKeepClaims(env: Env, w: World, call: Call)
    requires !call.ClaimTask? && !call.ExecuteEvent?
    ensures Step(env, w, call).0.claims == w.claims
  {
    hide MakeRow, Evaluate, Examine, PostError, ListsExecuting, TimeoutPayload, Remaining, Terminal;
  }

  ghost predicate AliveAt(w: World, c: string, t: int) {
    c in w.claims && w.claims[c].lastHeartbeat == Some(t)
  }

  ghost predicate BeatSince(env: Env, calls: seq<Call>, n: nat, c: string, t: int)
    requires n < |calls|
  {
    BeatAt(env, calls, n, c, t) && forall j: nat | n < j < |calls| :: !Beats(env, Run(env, calls[..j]), calls[j], c)
  }

  /** The last call to show the claim alive did so at `t`. */
  ghost predicate LastBeat(env: Env, calls: seq<Call>, c: string, t: int) {
    exists n: nat | n < |calls| :: BeatSince(env, calls, n, c, t)
  }

  lemma AliveNext(env: Env, calls: seq<Call>, c: string, t: int)
    requires calls != []
    ensures var init, last := calls[..|calls| - 1], |calls| - 1;
      AliveAt(Run(env, calls), c, t) <==>
        BeatAt(env, calls, last, c, t) || (AliveAt(Run(env, init), c, t) && !Beats(env, Run(env, init), calls[last], c))
  {
    hide Step;
    BeatStep(env, Run(env, calls[..|calls| - 1]), calls[|calls| - 1], c);
  }

  lemma BeatSinceNext(env: Env, calls: seq<Call>, n: nat, c: string, t: int)
    requires calls != [] && n < |calls| - 1
    ensures var init, last := calls[..|calls| - 1], |calls| - 1;
      BeatSince(env, calls, n, c, t) <==>
        BeatSince(env, init, n, c, t) && !Beats(env, Run(env, init), calls[last], c)
  {
    hide Run, Step, Beats;
    var init := calls[..|calls| - 1];
    assert init[..n] == calls[..n];
    assert forall j: nat | j < |init| :: init[..j] == calls[..j] && init[j] == calls[j];
  }

  lemma LastBeatNext(env: Env, calls: seq<Call>, c: string, t: int)
    requires calls != []
    ensures var init, last := calls[..|calls| - 1], |calls| - 1;
      LastBeat(env, calls, c, t) <==>
        BeatAt(env, calls, last, c, t) || (LastBeat(env, init, c, t) && !Beats(env, Run(env, init), calls[last], c))
  {
    var init, last := calls[..|calls| - 1], |calls| - 1;
    hide Run, Step, Beats, BeatAt, BeatSince;
    BeatNow(env, calls, c, t);
    if LastBeat(env, init, c, t) && !Beats(env, Run(env, init), calls[last], c) {
      var n: nat :| n < |init| && BeatSince(env, init, n, c, t);
      BeatSinceNext(env, calls, n, c, t);
    }
    if LastBeat(env, calls, c, t) {
      var n: nat :| n < |calls| && BeatSince(env, calls, n, c, t);
      if n < last {
        BeatSinceNext(env, calls, n, c, t);
      }
    }
  }

  lemma BeatNow(env: Env, calls: seq<Call>, c: string, t: int)
    requires calls != []
    ensures BeatSince(env, calls, |calls| - 1, c, t) <==> BeatAt(env, calls, |calls| - 1, c, t)
  {
    hide Run, Step;
  }

  /** Over every run: a claim's recorded heartbeat is the time of its last accepted heartbeat event,
      or of the claim itself if there was none. */
  lemma {:induction false} HeartbeatExactly(env: Env, calls: seq<Call>, c: string, t: int)
    ensures AliveAt(Run(env, calls), c, t) <==> LastBeat(env, calls, c, t)
  {
    hide Step, Beats, BeatAt, LastBeat, Run;
    if calls == [] {
      NeverAlive(env, c, t);
    } else {
      HeartbeatExactly(env, calls[..|calls| - 1], c, t);
      AliveNext(env, calls, c, t);
      LastBeatNext(env, calls, c, t);
    }
  }

  lemma NeverAlive(env: Env, c: string, t: int)
    ensures !AliveAt(Run(env, []), c, t) && !LastBeat(env, [], c, t)
  {
    hide Step;
  }

  /** Over every run: a sweep promotes exactly the claims that are executing and were last shown alive
      more than 45 seconds ago. */
  lemma SweepByHeartbeats(env: Env, calls: seq<Call>, order: seq<string>, now: int, c: string)
    requires ListsExecuting(Run(env, calls), order)
    ensures c in SweepStep(env, Run(env, calls), order, now).1 <==>
      InState(Run(env, calls), c, {Executing}) && exists t: int | t < now - 45 :: LastBeat(env, calls, c, t)
  {
    var w := Run(env, calls);
    hide Run, LastBeat, ListsExecuting, SweepStep;
    RunKeeps(env, calls);
    SweepExact(env, w, order, now);
    hide Inv;
    forall t: int ensures AliveAt(w, c, t) <==> LastBeat(env, calls, c, t) {
      HeartbeatExactly(env, calls, c, t);
    }
    if Overdue(w, c, now) {
      assert AliveAt(w, c, w.claims[c].lastHeartbeat.value);
    }
  }
}
