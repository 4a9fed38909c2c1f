/** What every reachable state of the coordinator satisfies, whatever calls led to it. */
module LifecycleInvariants {
  import opened Basics
  import opened JsonText
  import opened AuditChain
  import opened AuditProofs
  import opened Threshold
  import opened Lifecycle

  // ----- the invariant ------------------------------------------------------------------

  /** The number of attestation attempts a task can use. */
  function Limit(d: Descriptor): nat {
    if MaxAttempts(d) < 1 then 1 else MaxAttempts(d)
  }

  /** Attempts used, bounded by state; and no task posted with `all` waits for review. */
  ghost predicate TaskOk(t: Task) {
    && t.descriptor.requirement.Some?
    && RequirementOf(t).modes != []
    && t.attemptsUsed <= Limit(t.descriptor)
    && (t.state in {Posted, Claimed, Executing, Supervising} ==> t.attemptsUsed == 0)
    && (t.state in {Attesting, Completed} ==> t.attemptsUsed >= 1)
    && (t.state == Rechecking ==> 0 < t.attemptsUsed < MaxAttempts(t.descriptor))
    && (t.state == Voided ==> t.attemptsUsed == Limit(t.descriptor))
    && (t.state == Attesting ==> RequirementOf(t).threshold != Some("all"))
  }

  ghost predicate TasksOk(w: World) {
    forall t | t in w.tasks :: TaskOk(w.tasks[t])
  }

  /** A claim is accepted, and its task exists and is past POSTED. */
  ghost predicate ClaimsFit(tasks: map<string, Task>, claims: map<string, Claim>) {
    forall c | c in claims ::
      c != "" && claims[c].accepted && claims[c].taskId in tasks && tasks[claims[c].taskId].state != Posted
  }

  ghost predicate OneClaimEach(claims: map<string, Claim>) {
    forall c, d | c in claims && d in claims && claims[c].taskId == claims[d].taskId :: c == d
  }

  ghost predicate ClaimedTasks(tasks: map<string, Task>, claims: map<string, Claim>) {
    forall t | t in tasks && tasks[t].state != Posted :: exists c | c in claims :: claims[c].taskId == t
  }

  ghost predicate RowsNamed(rows: seq<Row>, claims: map<string, Claim>) {
    forall i | 0 <= i < |rows| && rows[i].entry.claimId.Some? :: rows[i].entry.claimId.value in claims
  }

  /** Every task past POSTED has exactly one claim, and a posted task has none. */
  ghost predicate Linked(w: World) {
    && ClaimsFit(w.tasks, w.claims) && OneClaimEach(w.claims)
    && ClaimedTasks(w.tasks, w.claims) && RowsNamed(w.rows, w.claims)
  }

  function PassCount(rows: seq<EvidenceRow>, claimId: string): nat {
    if rows == [] then 0
    else
      var r := rows[|rows| - 1];
      PassCount(rows[..|rows| - 1], claimId) + (if r.claimId == claimId && r.decision == Pass then 1 else 0)
  }

  ghost predicate PassStored(rows: seq<EvidenceRow>, claimId: string, mode: string) {
    exists i | 0 <= i < |rows| :: rows[i].claimId == claimId && rows[i].decision == Pass && rows[i].mode == mode
  }

  /** The stored evidence that a requirement asks for. */
  ghost predicate Backed(req: Requirement, rows: seq<EvidenceRow>, claimId: string) {
    && (req.threshold == Some("any") ==> PassCount(rows, claimId) >= 1)
    && (req.threshold == Some("M-of-N") ==> req.m.Some? && PassCount(rows, claimId) >= req.m.value)
    && (req.threshold == Some("all") ==> forall mode | mode in req.modes :: PassStored(rows, claimId, mode))
  }

  ghost predicate CompletedBacked(w: World) {
    forall c | c in w.claims && TaskOf(w, c).Some? && TaskOf(w, c).value.state == Completed ::
      Backed(RequirementOf(TaskOf(w, c).value), w.evidence, c)
  }

  ghost predicate Inv(env: Env, w: World) {
    Linked(w) && TasksOk(w) && CompletedBacked(w) && Authentic(env.crypto, w.rows)
  }

  lemma InvParts(env: Env, w: World)
    requires Inv(env, w)
    ensures Linked(w) && TasksOk(w) && CompletedBacked(w) && Authentic(env.crypto, w.rows)
  {
  }

  lemma InvWhole(env: Env, w: World)
    requires Linked(w) && TasksOk(w) && CompletedBacked(w) && Authentic(env.crypto, w.rows)
    ensures Inv(env, w)
  {
  }

  lemma InvFits(env: Env, w: World)
    requires Inv(env, w)
    ensures forall c | c in w.claims :: w.claims[c].taskId in w.tasks
  {
  }

  // ----- one task moves --------------------------------------------------------------------

  /** From `w` to `w'` only the task of claim `c` changes, to `task`; evidence may be added,
      the claim's heartbeat may change, and the new log rows `added` are the claim's. */
  ghost predicate Moved(w: World, w': World, c: string, task: Task, added: seq<Row>) {
    && c in w.claims
    && w'.workers == w.workers
    && w'.tasks == w.tasks[w.claims[c].taskId := task]
    && SameClaims(w.claims, w'.claims)
    && w.evidence <= w'.evidence
    && w'.rows == w.rows + added
    && forall i | 0 <= i < |added| :: Names(added[i], c)
  }

  ghost predicate SameClaims(a: map<string, Claim>, b: map<string, Claim>) {
    a.Keys == b.Keys && forall c | c in a :: a[c] == b[c].(lastHeartbeat := a[c].lastHeartbeat)
  }

  lemma AdvanceMoves(env: Env, w: World, c: string, task: Task, eventType: string, actor: string, payload: Dict)
    requires c in w.claims
    ensures var w' := Advance(env, w, c, task, eventType, actor, payload);
      w'.rows != [] && Moved(w, w', c, task, [w'.rows[|w'.rows| - 1]])
      && w'.claims == w.claims && w'.evidence == w.evidence
      && w'.rows[|w'.rows| - 1].entry
         == Entry(eventType, actor, payload, Some(c), Some(w.claims[c].taskId), env.clock(|w.rows|))
  {
  }

  lemma AdvanceAuthentic(env: Env, w: World, c: string, task: Task, eventType: string, actor: string, payload: Dict)
    requires c in w.claims && Authentic(env.crypto, w.rows)
    ensures Authentic(env.crypto, Advance(env, w, c, task, eventType, actor, payload).rows)
  {
    var taskId := w.claims[c].taskId;
    AuthenticAppend(env.crypto, w.rows, Entry(eventType, actor, payload, Some(c), Some(taskId), env.clock(|w.rows|)));
  }

  lemma RowsNamedAppend(rows: seq<Row>, added: seq<Row>, a: map<string, Claim>, b: map<string, Claim>, c: string)
    requires RowsNamed(rows, a) && a.Keys <= b.Keys && c in b
    requires forall i | 0 <= i < |added| :: added[i].entry.claimId == None || Names(added[i], c)
    ensures RowsNamed(rows + added, b)
  {
    var all := rows + added;
    forall i | 0 <= i < |all| && all[i].entry.claimId.Some? ensures all[i].entry.claimId.value in b {
      assert all[i] == if i < |rows| then rows[i] else added[i - |rows|];
    }
  }

  lemma MovedLinked(w: World, w': World, c: string, task: Task, added: seq<Row>)
    requires Linked(w) && Moved(w, w', c, task, added) && task.state != Posted
    ensures Linked(w')
  {
    RowsNamedAppend(w.rows, added, w.claims, w'.claims, c);
    hide RowsNamed;
    assert ClaimsFit(w'.tasks, w'.claims);
    assert OneClaimEach(w'.claims);
    ClaimedTasksMove(w.tasks, w'.tasks, w.claims, w'.claims, c, task);
  }

  lemma ClaimedTasksMove(ts: map<string, Task>, ts': map<string, Task>, a: map<string, Claim>, b: map<string, Claim>,
                         c: string, task: Task)
    requires ClaimedTasks(ts, a) && c in a && ts' == ts[a[c].taskId := task] && SameClaims(a, b)
    ensures ClaimedTasks(ts', b)
  {
    forall t | t in ts' && ts'[t].state != Posted ensures exists d | d in b :: b[d].taskId == t {
      if t == a[c].taskId {
        assert b[c].taskId == t;
      } else {
        var d :| d in a && a[d].taskId == t;
        assert b[d].taskId == t;
      }
    }
  }

  /** More evidence never takes backing away. */
  lemma {:induction false} BackedGrows(req: Requirement, a: seq<EvidenceRow>, b: seq<EvidenceRow>, c: string)
    requires a <= b && Backed(req, a, c)
    ensures Backed(req, b, c)
    decreases |b|
  {
    if |a| < |b| {
      var init := b[..|b| - 1];
      BackedGrows(req, a, init, c);
      forall mode | PassStored(init, c, mode) ensures PassStored(b, c, mode) {
        var i :| 0 <= i < |init| && init[i].claimId == c && init[i].decision == Pass && init[i].mode == mode;
        assert b[i] == init[i];
      }
    } else {
      assert a == b;
    }
  }

  lemma MovedTask(w: World, w': World, c: string, task: Task, added: seq<Row>, d: string)
    requires Linked(w) && Moved(w, w', c, task, added) && d in w.claims
    ensures TaskOf(w', d) == if d == c then Some(task) else TaskOf(w, d)
  {
  }

  lemma MovedSelf(w: World, w': World, c: string, task: Task, added: seq<Row>)
    requires Moved(w, w', c, task, added)
    ensures TaskOf(w', c) == Some(task) && w.evidence <= w'.evidence
  {
  }

  lemma MovedBacked(w: World, w': World, c: string, task: Task, added: seq<Row>)
    requires Linked(w) && CompletedBacked(w) && Moved(w, w', c, task, added)
    requires task.state == Completed ==> Backed(RequirementOf(task), w'.evidence, c)
    ensures CompletedBacked(w')
  {
    hide Backed, TaskOf, Linked;
    forall d | d in w'.claims && TaskOf(w', d).Some? && TaskOf(w', d).value.state == Completed
      ensures Backed(RequirementOf(TaskOf(w', d).value), w'.evidence, d)
    {
      MovedTask(w, w', c, task, added, d);
      if d != c {
        BackedGrows(RequirementOf(TaskOf(w, d).value), w.evidence, w'.evidence, d);
      }
    }
  }

  lemma MovedInv(env: Env, w: World, w': World, c: string, task: Task, added: seq<Row>)
    requires Inv(env, w) && Moved(w, w', c, task, added) && Authentic(env.crypto, w'.rows)
    requires task.state != Posted && TaskOk(task)
    requires task.state == Completed ==> Backed(RequirementOf(task), w'.evidence, c)
    ensures Inv(env, w')
  {
    MovedLinked(w, w', c, task, added);
    MovedBacked(w, w', c, task, added);
    hide Backed, TaskOk, CompletedBacked, Linked, Authentic, SameClaims;
    assert w'.tasks == w.tasks[w.claims[c].taskId := task];
  }

  // ----- attestation -------------------------------------------------------------------------

  /** The task after an attempt decided `d`. */
  function Routed(task: Task, d: Decision): Task {
    var n := task.attemptsUsed + 1;
    task.(attemptsUsed := n,
          state := match d
                   case Review => Attesting
                   case Pass => Completed
                   case Fail => if Remaining(task, n) > 0 then Rechecking else Voided)
  }

  lemma RouteMoves(env: Env, w: World, c: string, task: Task, d: Decision)
    requires c in w.claims && Authentic(env.crypto, w.rows)
    ensures var w' := Route(env, w, c, task, d);
      |w.rows| <= |w'.rows| && Moved(w, w', c, Routed(task, d), w'.rows[|w.rows|..])
      && w'.evidence == w.evidence && Authentic(env.crypto, w'.rows)
  {
    hide Advance, Authentic;
    var claim, n := w.claims[c], task.attemptsUsed + 1;
    var task' := task.(state := Attesting, attemptsUsed := n);
    AdvanceMoves(env, w, c, task', "attestation_attempt", claim.workerId, AttemptPayload(c, n, d));
    AdvanceAuthentic(env, w, c, task', "attestation_attempt", claim.workerId, AttemptPayload(c, n, d));
    var w1 := Advance(env, w, c, task', "attestation_attempt", claim.workerId, AttemptPayload(c, n, d));
    var ref, remaining := task.descriptor.accountingRef, Remaining(task, n);
    match d
    case Review =>
    case Pass =>
      AdvanceTwice(env, w, w1, c, task', Routed(task, d), "task_completed", CompletedPayload(c, claim.taskId, ref));
    case Fail =>
      if remaining > 0 {
        AdvanceTwice(env, w, w1, c, task', Routed(task, d), "recheck_requested",
                     RecheckPayload(c, n, remaining, env.reasons(|w1.rows|)));
      } else {
        AdvanceTwice(env, w, w1, c, task', Routed(task, d), "task_voided",
                     VoidedPayload(c, claim.taskId, n, env.reasons(|w1.rows|), ref));
      }
  }

  lemma AdvanceTwice(env: Env, w: World, w1: World, c: string, task1: Task, task2: Task,
                     eventType: string, payload: Dict)
    requires |w1.rows| >= |w.rows| && Moved(w, w1, c, task1, w1.rows[|w.rows|..])
    requires w1.claims == w.claims && w1.evidence == w.evidence && Authentic(env.crypto, w1.rows)
    ensures var w2 := Advance(env, w1, c, task2, eventType, COORDINATOR, payload);
      |w2.rows| >= |w.rows| && Moved(w, w2, c, task2, w2.rows[|w.rows|..])
      && w2.evidence == w.evidence && Authentic(env.crypto, w2.rows)
  {
    hide Advance, Authentic;
    AdvanceMoves(env, w1, c, task2, eventType, COORDINATOR, payload);
    AdvanceAuthentic(env, w1, c, task2, eventType, COORDINATOR, payload);
    var w2 := Advance(env, w1, c, task2, eventType, COORDINATOR, payload);
    assert w2.rows[|w.rows|..] == w1.rows[|w.rows|..] + [w2.rows[|w2.rows| - 1]];
  }

  lemma RoutedOk(task: Task, vs: seq<Verdict>)
    requires TaskOk(task) && CanAttest(task.state)
    ensures TaskOk(Routed(task, Evaluate(RequirementOf(task), vs)))
  {
    if RequirementOf(task).threshold == Some("all") {
      AllNeverReview(RequirementOf(task), vs);
    }
  }

  // ----- a passing decision is backed by rows stored in the same call --------------------------

  lemma {:induction false} ExamStored(c: string, worker: string, items: seq<Submission>)
    requires !Examine(c, worker, items).failed
    ensures var e := Examine(c, worker, items);
      CountOf(e.verdicts, Pass) == PassCount(e.stored, c)
      && (forall mode | mode in PassingModes(e.verdicts) :: PassStored(e.stored, c, mode))
      && (forall i | 0 <= i < |e.stored| :: e.stored[i].claimId == c)
  {
    if items != [] {
      var init, s := items[..|items| - 1], items[|items| - 1];
      ExamStored(c, worker, init);
      var e0, e := Examine(c, worker, init), Examine(c, worker, items);
      ExamStep(c, e0, e);
    }
  }

  lemma ExamStep(c: string, e0: Exam, e: Exam)
    requires CountOf(e0.verdicts, Pass) == PassCount(e0.stored, c)
    requires forall mode | mode in PassingModes(e0.verdicts) :: PassStored(e0.stored, c, mode)
    requires e.verdicts != [] && e0.verdicts == e.verdicts[..|e.verdicts| - 1]
    requires var v := e.verdicts[|e.verdicts| - 1];
      || (e.stored == e0.stored && v.decision == Fail)
      || (e.stored != [] && e0.stored == e.stored[..|e.stored| - 1]
          && var r := e.stored[|e.stored| - 1]; r.claimId == c && r.mode == v.mode && r.decision == v.decision)
    ensures CountOf(e.verdicts, Pass) == PassCount(e.stored, c)
    ensures forall mode | mode in PassingModes(e.verdicts) :: PassStored(e.stored, c, mode)
  {
    var v := e.verdicts[|e.verdicts| - 1];
    forall mode | mode in PassingModes(e.verdicts) ensures PassStored(e.stored, c, mode) {
      if mode in PassingModes(e0.verdicts) {
        var i :| 0 <= i < |e0.stored|
          && e0.stored[i].claimId == c && e0.stored[i].decision == Pass && e0.stored[i].mode == mode;
        assert e.stored[i] == e0.stored[i];
      } else {
        assert v.decision == Pass && v.mode == mode;
        assert e.stored[|e.stored| - 1].mode == mode;
      }
    }
  }

  /** The rows one passing call stores are, by themselves, what the requirement asks for. */
  lemma PassIsBacked(req: Requirement, c: string, worker: string, items: seq<Submission>)
    requires !Examine(c, worker, items).failed
    requires Evaluate(req, Examine(c, worker, items).verdicts) == Pass
    ensures Backed(req, Examine(c, worker, items).stored, c)
  {
    ExamStored(c, worker, items);
    var e := Examine(c, worker, items);
    if req.threshold == Some("all") {
      forall mode | mode in req.modes ensures PassStored(e.stored, c, mode) {
        assert mode in set x | x in req.modes;
      }
    }
  }

  lemma {:induction false} BackedSuffix(req: Requirement, a: seq<EvidenceRow>, b: seq<EvidenceRow>, c: string)
    requires Backed(req, b, c)
    ensures Backed(req, a + b, c)
  {
    CountSuffix(a, b, c);
    forall mode | PassStored(b, c, mode) ensures PassStored(a + b, c, mode) {
      var i :| 0 <= i < |b| && b[i].claimId == c && b[i].decision == Pass && b[i].mode == mode;
      assert (a + b)[|a| + i] == b[i];
    }
  }

  lemma {:induction false} CountSuffix(a: seq<EvidenceRow>, b: seq<EvidenceRow>, c: string)
    ensures PassCount(a + b, c) >= PassCount(b, c)
  {
    if b != [] {
      assert (a + b)[..|a + b| - 1] == a + b[..|b| - 1];
      CountSuffix(a, b[..|b| - 1], c);
    }
  }

  // ----- every call keeps the invariant --------------------------------------------------------

  lemma PostKeeps(env: Env, w: World, taskId: string, d: Descriptor, expiry: Option<int>)
    requires Inv(env, w)
    ensures Inv(env, PostStep(env, w, taskId, d, expiry).0)
  {
    if PostError(env, d).None? && expiry.Some? && taskId !in w.tasks {
      var task := Task(d, expiry.value, Posted, 0);
      var w' := PostStep(env, w, taskId, d, expiry).0;
      var e := Entry("task_posted", d.postedBy, PostedPayload(taskId, d), None, Some(taskId), env.clock(|w.rows|));
      AuthenticAppend(env.crypto, w.rows, e);
      assert w' == World(w.workers, w.tasks[taskId := task], w.claims, w.evidence,
                         w.rows + [MakeRow(env.crypto, w.rows, e)]);
      assert TaskOk(task);
      PostLinked(w, w', taskId, task, MakeRow(env.crypto, w.rows, e));
      SameTasksBacked(w, w');
      hide Authentic, TaskOk, Linked, CompletedBacked, PostStep, MakeRow;
    }
  }

  lemma PostLinked(w: World, w': World, taskId: string, task: Task, r: Row)
    requires Linked(w) && taskId !in w.tasks && task.state == Posted && r.entry.claimId == None
    requires w' == World(w.workers, w.tasks[taskId := task], w.claims, w.evidence, w.rows + [r])
    ensures Linked(w')
    ensures forall c | c in w.claims :: TaskOf(w', c) == TaskOf(w, c)
  {
    assert forall i | 0 <= i < |w.rows| :: w'.rows[i] == w.rows[i];
  }

  /** Completed tasks stay backed when no earlier claim's task changes and none completes. */
  lemma SameTasksBacked(w: World, w': World)
    requires CompletedBacked(w) && w'.evidence == w.evidence
    requires forall c | c in w'.claims && TaskOf(w', c).Some? && TaskOf(w', c).value.state == Completed ::
      c in w.claims && TaskOf(w', c) == TaskOf(w, c)
    ensures CompletedBacked(w')
  {
    hide Backed, TaskOf;
  }

  lemma ClaimKeeps(env: Env, w: World, taskId: string, worker: string, bid: Option<string>,
                   etaOk: bool, acceptance: Acceptance, newClaim: string, now: int)
    requires Inv(env, w)
    ensures Inv(env, ClaimStep(env, w, taskId, worker, bid, etaOk, acceptance, newClaim, now).0)
  {
    hide ClaimError, Linked, CompletedBacked, Inv, Authentic, Advance;
    InvParts(env, w);
    if ClaimError(w, taskId, worker, etaOk, acceptance, newClaim, now).None? {
      ClaimShape(env, w, taskId, worker, bid, etaOk, acceptance, newClaim, now);
      var claim := Claim(taskId, worker, bid, true, Some(now));
      var w1 := w.(claims := w.claims[newClaim := claim]);
      var task := w.tasks[taskId].(state := Claimed);
      AdvanceAuthentic(env, w1, newClaim, task, "task_claimed", worker, ClaimedPayload(taskId, newClaim, bid));
      hide Advance, ClaimedPayload, Authentic;
      var w' := ClaimStep(env, w, taskId, worker, bid, etaOk, acceptance, newClaim, now).0;
      assert Authentic(env.crypto, w'.rows);
      hide ClaimStep;
      ClaimLinked(w, w', taskId, newClaim, claim, task);
      assert TaskOk(task) && TasksOk(w');
      SameTasksBacked(w, w');
      InvWhole(env, w');
    }
  }

  /** What an accepted claim writes. */
  lemma ClaimShape(env: Env, w: World, taskId: string, worker: string, bid: Option<string>,
                   etaOk: bool, acceptance: Acceptance, newClaim: string, now: int)
    requires ClaimError(w, taskId, worker, etaOk, acceptance, newClaim, now).None?
    ensures taskId in w.tasks && w.tasks[taskId].state == Posted && newClaim !in w.claims && newClaim != ""
    ensures var w' := ClaimStep(env, w, taskId, worker, bid, etaOk, acceptance, newClaim, now).0;
      && w'.tasks == w.tasks[taskId := w.tasks[taskId].(state := Claimed)]
      && w'.claims == w.claims[newClaim := Claim(taskId, worker, bid, true, Some(now))]
      && w'.evidence == w.evidence
      && w'.rows != [] && w'.rows == w.rows + [w'.rows[|w'.rows| - 1]]
      && Names(w'.rows[|w'.rows| - 1], newClaim)
      && w'.rows[|w'.rows| - 1].entry.eventType == "task_claimed"
  {
    var w1 := w.(claims := w.claims[newClaim := Claim(taskId, worker, bid, true, Some(now))]);
    AdvanceMoves(env, w1, newClaim, w.tasks[taskId].(state := Claimed), "task_claimed", worker,
                 ClaimedPayload(taskId, newClaim, bid));
    hide Advance;
  }

  lemma ClaimLinked(w: World, w': World, taskId: string, newClaim: string, claim: Claim, task: Task)
    requires Linked(w) && taskId in w.tasks && w.tasks[taskId].state == Posted && task.state == Claimed
    requires newClaim !in w.claims && newClaim != "" && claim.taskId == taskId && claim.accepted && w'.rows != []
    requires w'.tasks == w.tasks[taskId := task] && w'.claims == w.claims[newClaim := claim]
    requires w'.rows == w.rows + [w'.rows[|w'.rows| - 1]] && Names(w'.rows[|w'.rows| - 1], newClaim)
    ensures Linked(w')
    ensures TaskOf(w', newClaim) == Some(task)
    ensures forall c | c in w.claims :: TaskOf(w', c) == TaskOf(w, c)
  {
    RowsNamedAppend(w.rows, [w'.rows[|w'.rows| - 1]], w.claims, w'.claims, newClaim);
    hide RowsNamed;
    ClaimedTasksAdd(w.tasks, w'.tasks, w.claims, w'.claims, taskId, newClaim, claim, task);
    hide ClaimedTasks;
    assert forall c | c in w.claims :: w.claims[c].taskId != taskId;
  }

  lemma ClaimedTasksAdd(ts: map<string, Task>, ts': map<string, Task>, a: map<string, Claim>, b: map<string, Claim>,
                        taskId: string, newClaim: string, claim: Claim, task: Task)
    requires ClaimedTasks(ts, a) && newClaim !in a && claim.taskId == taskId
    requires ts' == ts[taskId := task] && b == a[newClaim := claim]
    ensures ClaimedTasks(ts', b)
  {
    forall t | t in ts' && ts'[t].state != Posted ensures exists d | d in b :: b[d].taskId == t {
      if t == taskId {
        assert b[newClaim].taskId == t;
      } else {
        var d :| d in a && a[d].taskId == t;
        assert b[d].taskId == t;
      }
    }
  }

  /** The calls that move an existing claim's task without attesting. */
  lemma MoveKeeps(env: Env, w: World, w1: World, c: string, task: Task, eventType: string, actor: string, payload: Dict)
    requires Inv(env, w) && c in w.claims && TaskOf(w, c).Some?
    requires w1 == w || (SameClaims(w.claims, w1.claims) && w1 == w.(claims := w1.claims))
    requires TaskOk(task) && task.state != Posted && task.state != Completed
    ensures Inv(env, Advance(env, w1, c, task, eventType, actor, payload))
  {
    hide Authentic, Advance, TaskOk, Inv, Linked, CompletedBacked, TasksOk, Backed;
    InvParts(env, w);
    AdvanceMoves(env, w1, c, task, eventType, actor, payload);
    AdvanceAuthentic(env, w1, c, task, eventType, actor, payload);
    var w' := Advance(env, w1, c, task, eventType, actor, payload);
    assert Moved(w, w', c, task, [w'.rows[|w'.rows| - 1]]);
    MovedInv(env, w, w', c, task, [w'.rows[|w'.rows| - 1]]);
  }

  lemma InvTask(env: Env, w: World, c: string)
    requires Inv(env, w) && TaskOf(w, c).Some?
    ensures c in w.claims && TaskOk(TaskOf(w, c).value) && TaskOf(w, c).value.state != Posted
  {
  }

  lemma AttestKeeps(env: Env, w: World, c: string, items: seq<Submission>)
    requires Inv(env, w)
    ensures Inv(env, AttestStep(env, w, c, items).0)
  {
    if TaskOf(w, c).Some? && CanAttest(TaskOf(w, c).value.state) {
      InvTask(env, w, c);
      var task, exam := TaskOf(w, c).value, Examine(c, w.claims[c].workerId, items);
      var w1 := w.(evidence := w.evidence + exam.stored);
      if exam.failed {
        EvidenceKeeps(env, w, exam.stored);
      } else {
        var d := Evaluate(RequirementOf(task), exam.verdicts);
        RoutedOk(task, exam.verdicts);
        if d == Pass {
          PassIsBacked(RequirementOf(task), c, w.claims[c].workerId, items);
          BackedSuffix(RequirementOf(task), w.evidence, exam.stored, c);
        }
        RoutedKeeps(env, w, exam.stored, c, task, d);
      }
    }
  }

  lemma RoutedKeeps(env: Env, w: World, stored: seq<EvidenceRow>, c: string, task: Task, d: Decision)
    requires Inv(env, w) && c in w.claims
    requires TaskOk(Routed(task, d))
    requires d == Pass ==> Backed(RequirementOf(task), w.evidence + stored, c)
    ensures Inv(env, Route(env, w.(evidence := w.evidence + stored), c, task, d))
  {
    hide Route, Authentic, Backed, TaskOk, Linked, CompletedBacked, TasksOk, Advance;
    var w1 := w.(evidence := w.evidence + stored);
    RouteMoves(env, w1, c, task, d);
    var w' := Route(env, w1, c, task, d);
    assert Moved(w, w', c, Routed(task, d), w'.rows[|w.rows|..]);
    MovedInv(env, w, w', c, Routed(task, d), w'.rows[|w.rows|..]);
  }

  lemma EvidenceKeeps(env: Env, w: World, stored: seq<EvidenceRow>)
    requires Inv(env, w)
    ensures Inv(env, w.(evidence := w.evidence + stored))
  {
    hide Backed, Authentic, TaskOk;
    var w' := w.(evidence := w.evidence + stored);
    forall c | c in w.claims && TaskOf(w', c).Some? && TaskOf(w', c).value.state == Completed
      ensures Backed(RequirementOf(TaskOf(w', c).value), w'.evidence, c)
    {
      assert TaskOf(w', c) == TaskOf(w, c);
      BackedGrows(RequirementOf(TaskOf(w, c).value), w.evidence, w'.evidence, c);
    }
  }

  lemma {:induction false} SweepKeeps(env: Env, w: World, order: seq<string>, now: int)
    requires Inv(env, w) && ListsExecuting(w, order)
    ensures Inv(env, SweepStep(env, w, order, now).0)
  {
    SweepPrefixKeeps(env, w, order, |order|, now);
    assert order[..|order|] == order;
  }

  lemma {:induction false} SweepPrefixKeeps(env: Env, w: World, order: seq<string>, n: nat, now: int)
    requires Inv(env, w) && ListsExecuting(w, order) && n <= |order|
    ensures var w' := SweepStep(env, w, order[..n], now).0;
      Inv(env, w') && forall i | n <= i < |order| :: TaskOf(w', order[i]) == TaskOf(w, order[i])
  {
    hide SweepStep, Inv, TaskOf, SweepOne;
    if n == 0 {
      SweepNone(env, w, order, now);
    } else {
      SweepPrefixKeeps(env, w, order, n - 1, now);
      var c, w0 := order[n - 1], SweepStep(env, w, order[..n - 1], now).0;
      assert c in order;
      SweepUnfold(env, w, order, n, now);
      SweepOneKeeps(env, w0, c, now);
      forall i | n <= i < |order| ensures TaskOf(SweepStep(env, w, order[..n], now).0, order[i]) == TaskOf(w, order[i])
      {
        assert order[i] != c;
      }
    }
  }

  lemma SweepNone(env: Env, w: World, order: seq<string>, now: int)
    ensures SweepStep(env, w, order[..0], now) == (w, [])
  {
  }

  lemma SweepUnfold(env: Env, w: World, order: seq<string>, n: nat, now: int)
    requires 0 < n <= |order|
    requires TaskOf(SweepStep(env, w, order[..n - 1], now).0, order[n - 1]).Some?
    ensures var (w0, promoted) := SweepStep(env, w, order[..n - 1], now);
      SweepStep(env, w, order[..n], now)
      == (SweepOne(env, w0, order[n - 1], now),
          promoted + (if Stale(w0.claims[order[n - 1]], now) then [order[n - 1]] else []))
  {
    assert order[..n][..n - 1] == order[..n - 1] && order[..n][n - 1] == order[n - 1];
    hide Advance;
    var promoted := SweepStep(env, w, order[..n - 1], now).1;
    assert promoted + [] == promoted;
  }

  /** What the sweep does with one executing claim. */
  ghost function SweepOne(env: Env, w: World, c: string, now: int): World
    requires TaskOf(w, c).Some?
  {
    if !Stale(w.claims[c], now) then w
    else
      Advance(env, w, c, TaskOf(w, c).value.(state := Supervising), "heartbeat_timeout", COORDINATOR,
              TimeoutPayload(c, w.claims[c].lastHeartbeat.value))
  }

  lemma SweepOneKeeps(env: Env, w: World, c: string, now: int)
    requires Inv(env, w) && TaskOf(w, c).Some? && TaskOf(w, c).value.state == Executing
    ensures Inv(env, SweepOne(env, w, c, now))
    ensures forall d | d != c :: TaskOf(SweepOne(env, w, c, now), d) == TaskOf(w, d)
  {
    InvTask(env, w, c);
    if Stale(w.claims[c], now) {
      var task := TaskOf(w, c).value.(state := Supervising);
      var payload := TimeoutPayload(c, w.claims[c].lastHeartbeat.value);
      MoveKeeps(env, w, w, c, task, "heartbeat_timeout", COORDINATOR, payload);
      AdvanceMoves(env, w, c, task, "heartbeat_timeout", COORDINATOR, payload);
      hide Advance;
      var w' := SweepOne(env, w, c, now);
      forall d | d != c ensures TaskOf(w', d) == TaskOf(w, d) {
        if d in w.claims {
          MovedTask(w, w', c, task, [w'.rows[|w'.rows| - 1]], d);
        }
      }
    }
  }

  lemma StepKeeps(env: Env, w: World, call: Call)
    requires Inv(env, w)
    ensures Inv(env, Step(env, w, call).0)
  {
    match call
    case UpsertWorker(worker, principal) =>
      var w' := Step(env, w, call).0;
      assert forall c | c in w.claims :: TaskOf(w', c) == TaskOf(w, c);
    case Post(taskId, d, expiry) => PostKeeps(env, w, taskId, d, expiry);
    case ClaimTask(taskId, worker, bid, etaOk, acceptance, newClaim, now) =>
      ClaimKeeps(env, w, taskId, worker, bid, etaOk, acceptance, newClaim, now);
    case ExecuteOpen(c, session) => OpenKeeps(env, w, c, session);
    case ExecuteEvent(c, eventType, time, payload, sigOk) => EventKeeps(env, w, c, eventType, time, payload, sigOk);
    case CheckHeartbeats(order, now) =>
      if ListsExecuting(w, order) {
        SweepKeeps(env, w, order, now);
      }
    case Attest(c, items) => AttestKeeps(env, w, c, items);
    case Supervise(c, reason, urgency) => SuperviseKeeps(env, w, c, reason, urgency);
    case Abort(c, reason, snapshot) => AbortKeeps(env, w, c, reason, snapshot);
  }

  lemma OpenKeeps(env: Env, w: World, c: string, session: string)
    requires Inv(env, w)
    ensures Inv(env, OpenStep(env, w, c, session).0)
  {
    hide Inv, Advance;
    if OpenStep(env, w, c, session).1 == Accepted {
      InvTask(env, w, c);
      MoveKeeps(env, w, w, c, TaskOf(w, c).value.(state := Executing), "execution_started",
                w.claims[c].workerId, StartedPayload(c, session));
    }
  }

  lemma EventKeeps(env: Env, w: World, c: string, eventType: string, time: Option<int>, payload: Dict, sigOk: bool)
    requires Inv(env, w)
    ensures Inv(env, EventStep(env, w, c, eventType, time, payload, sigOk).0)
  {
    hide Inv, Advance;
    if EventStep(env, w, c, eventType, time, payload, sigOk).1 == Accepted {
      InvTask(env, w, c);
      var claim := w.claims[c];
      var w1 := if eventType == "heartbeat"
                then w.(claims := w.claims[c := claim.(lastHeartbeat := time)]) else w;
      MoveKeeps(env, w, w1, c, TaskOf(w, c).value, eventType, claim.workerId, payload);
    }
  }

  lemma SuperviseKeeps(env: Env, w: World, c: string, reason: string, urgency: string)
    requires Inv(env, w)
    ensures Inv(env, SuperviseStep(env, w, c, reason, urgency).0)
  {
    hide Inv, Advance;
    if SuperviseStep(env, w, c, reason, urgency).1 == Accepted {
      InvTask(env, w, c);
      var task := TaskOf(w, c).value;
      var s := if task.state == Executing then Supervising else Executing;
      MoveKeeps(env, w, w, c, task.(state := s), "supervision_handoff", w.claims[c].workerId,
                HandoffPayload(c, reason, urgency, s));
    }
  }

  lemma AbortKeeps(env: Env, w: World, c: string, reason: string, snapshot: Dict)
    requires Inv(env, w)
    ensures Inv(env, AbortStep(env, w, c, reason, snapshot).0)
  {
    hide Inv, Advance;
    if AbortStep(env, w, c, reason, snapshot).1 == Accepted {
      InvTask(env, w, c);
      var task := TaskOf(w, c).value;
      MoveKeeps(env, w, w, c, task.(state := Aborted), "task_aborted", w.claims[c].workerId,
                AbortedPayload(c, w.claims[c].taskId, reason, snapshot, task.descriptor.accountingRef));
    }
  }

  /** Every reachable state satisfies the invariant. */
  lemma {:induction false} RunKeeps(env: Env, calls: seq<Call>)
    ensures Inv(env, Run(env, calls))
  {
    if calls != [] {
      RunKeeps(env, calls[..|calls| - 1]);
      StepKeeps(env, Run(env, calls[..|calls| - 1]), calls[|calls| - 1]);
    }
  }
}
