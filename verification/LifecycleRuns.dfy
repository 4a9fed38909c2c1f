/** What calls can and cannot do to a claim, and so what every run keeps. */
module LifecycleRuns {
  import opened Basics
  import opened JsonText
  import opened AuditChain
  import opened AuditProofs
  import opened Threshold
  import opened Lifecycle
  import opened LifecycleInvariants
  import opened LifecycleLog

  // ----- the heartbeat sweep -----------------------------------------------------------------

  predicate Overdue(w: World, c: string, now: int) {
    c in w.claims && TaskOf(w, c).Some? && TaskOf(w, c).value.state == Executing && Stale(w.claims[c], now)
  }

  /** The claim's log afterwards: one timeout entry more if the claim was promoted. */
  ghost predicate TimeoutLogged(before: seq<Row>, after: seq<Row>, promoted: bool) {
    if promoted then
      |after| == |before| + 1 && before <= after && after[|before|].entry.eventType == "heartbeat_timeout"
    else after == before
  }

  function Supervised(task: Task, promoted: bool): Task {
    if promoted then task.(state := Supervising) else task
  }

  /** The effect on claim `c` of a sweep that has promoted `promoted`, if `listed` says that
      `c` was among the claims gone through. */
  ghost predicate Swept(w: World, w': World, promoted: seq<string>, listed: bool, now: int, c: string)
    requires TaskOf(w, c).Some?
  {
    var hit := listed && Overdue(w, c, now);
    && (c in promoted <==> hit)
    && TaskOf(w', c) == Some(Supervised(TaskOf(w, c).value, hit))
    && TimeoutLogged(ClaimRows(w.rows, c), ClaimRows(w'.rows, c), hit)
    && |w'.rows| == |w.rows| + |promoted|
    && w' == w.(tasks := w'.tasks, rows := w'.rows) && w'.tasks.Keys == w.tasks.Keys
  }

  lemma SweepOneEffect(env: Env, w: World, d: string, now: int, c: string)
    requires Inv(env, w) && TaskOf(w, d).Some? && TaskOf(w, d).value.state == Executing && TaskOf(w, c).Some?
    ensures Swept(w, SweepOne(env, w, d, now), if Stale(w.claims[d], now) then [d] else [], c == d, now, c)
  {
    hide Inv, Linked, Authentic, Advance;
    InvParts(env, w);
    if Stale(w.claims[d], now) {
      var task := TaskOf(w, d).value.(state := Supervising);
      var payload := TimeoutPayload(d, w.claims[d].lastHeartbeat.value);
      AdvanceMoves(env, w, d, task, "heartbeat_timeout", COORDINATOR, payload);
      var w' := SweepOne(env, w, d, now);
      var r := w'.rows[|w'.rows| - 1];
      MovedTask(w, w', d, task, [r], c);
      ClaimRowsAdded(w.rows, [r], d, c);
      hide ClaimRows;
      assert ClaimRows(w.rows, c) + [] == ClaimRows(w.rows, c);
    }
  }

  /** One claim more in a sweep. */
  lemma SweptNext(w: World, w0: World, w': World, promoted: seq<string>, one: seq<string>, d: string, listed: bool,
                  now: int, c: string)
    requires TaskOf(w, c).Some? && Swept(w, w0, promoted, listed, now, c)
    requires Swept(w0, w', one, c == d, now, c)
    requires c == d ==> !listed
    ensures Swept(w, w', promoted + one, listed || c == d, now, c)
  {
    hide ClaimRows;
  }

  lemma {:induction false} SweepPrefixEffect(env: Env, w: World, order: seq<string>, n: nat, now: int, c: string)
    requires Inv(env, w) && ListsExecuting(w, order) && n <= |order| && TaskOf(w, c).Some?
    ensures var (w', promoted) := SweepStep(env, w, order[..n], now);
      Swept(w, w', promoted, c in order[..n], now, c)
  {
    hide SweepStep, SweepOne, Inv, TaskOf, Swept, Stale, ListsExecuting;
    if n == 0 {
      SweepNone(env, w, order, now);
      NothingSwept(w, now, c);
    } else {
      SweepPrefixEffect(env, w, order, n - 1, now, c);
      SweepPrefixKeeps(env, w, order, n - 1, now);
      var d := order[n - 1];
      var (w0, promoted) := SweepStep(env, w, order[..n - 1], now);
      Listed(w, order, n - 1);
      SweepUnfold(env, w, order, n, now);
      SweptStays(w, w0, promoted, c in order[..n - 1], now, c);
      SweepOneEffect(env, w0, d, now, c);
      assert order[..n] == order[..n - 1] + [d];
      SweptNext(w, w0, SweepOne(env, w0, d, now), promoted, if Stale(w0.claims[d], now) then [d] else [], d,
                c in order[..n - 1], now, c);
    }
  }

  lemma Listed(w: World, order: seq<string>, i: nat)
    requires ListsExecuting(w, order) && i < |order|
    ensures order[i] in w.claims && order[i] !in order[..i]
    ensures TaskOf(w, order[i]).Some? && TaskOf(w, order[i]).value.state == Executing
  {
    assert order[i] in order;
  }

  lemma NothingSwept(w: World, now: int, c: string)
    requires TaskOf(w, c).Some?
    ensures Swept(w, w, [], false, now, c)
  {
  }

  lemma SweptStays(w: World, w0: World, promoted: seq<string>, listed: bool, now: int, c: string)
    requires TaskOf(w, c).Some? && Swept(w, w0, promoted, listed, now, c)
    ensures TaskOf(w0, c).Some? && w0.claims == w.claims
  {
  }

  /** The sweep is exact: it promotes precisely the executing claims whose last heartbeat is
      older than 45 seconds, writes one timeout entry for each, and changes nothing else. */
  lemma SweepExact(env: Env, w: World, order: seq<string>, now: int)
    requires Inv(env, w) && ListsExecuting(w, order)
    ensures var (w', promoted) := SweepStep(env, w, order, now);
      && (forall c :: c in promoted <==> Overdue(w, c, now))
      && (forall c | c in w.claims ::
            TaskOf(w, c).Some? && TaskOf(w', c) == Some(Supervised(TaskOf(w, c).value, Overdue(w, c, now)))
            && TimeoutLogged(ClaimRows(w.rows, c), ClaimRows(w'.rows, c), Overdue(w, c, now)))
      && |w'.rows| == |w.rows| + |promoted|
      && w' == w.(tasks := w'.tasks, rows := w'.rows) && w'.tasks.Keys == w.tasks.Keys
      && (forall t | t in w.tasks ::
            w'.tasks[t] == w.tasks[t] || exists c | c in promoted :: c in w.claims && w.claims[c].taskId == t)
  {
    var (w', promoted) := SweepStep(env, w, order, now);
    SweepTouches(env, w, order, now);
    assert order[..|order|] == order;
    forall c ensures c in promoted <==> Overdue(w, c, now) {
      PromotedListed(env, w, order, now);
      if c in order || c in w.claims {
        SweepPrefixEffect(env, w, order, |order|, now, c);
      }
    }
    forall c | c in w.claims
      ensures TaskOf(w, c).Some? && TaskOf(w', c) == Some(Supervised(TaskOf(w, c).value, Overdue(w, c, now)))
      ensures TimeoutLogged(ClaimRows(w.rows, c), ClaimRows(w'.rows, c), Overdue(w, c, now))
    {
      SweepPrefixEffect(env, w, order, |order|, now, c);
    }
    if order != [] {
      SweepPrefixEffect(env, w, order, |order|, now, order[0]);
    }
  }

  /** The sweep touches no task but those of the claims it promotes. */
  lemma {:induction false} SweepTouches(env: Env, w: World, order: seq<string>, now: int)
    ensures var (w', promoted) := SweepStep(env, w, order, now);
      && w.tasks.Keys <= w'.tasks.Keys
      && (forall t | t in w.tasks ::
            w'.tasks[t] == w.tasks[t] || exists c | c in promoted :: c in w.claims && w.claims[c].taskId == t)
  {
    if order != [] {
      SweepTouches(env, w, order[..|order| - 1], now);
      hide MakeRow, Stale;
      var (w0, before) := SweepStep(env, w, order[..|order| - 1], now);
      var (w', promoted) := SweepStep(env, w, order, now);
      forall t | t in w.tasks && w'.tasks[t] != w.tasks[t]
        ensures exists c | c in promoted :: c in w.claims && w.claims[c].taskId == t
      {
        if w0.tasks[t] != w.tasks[t] {
          var c :| c in before && c in w.claims && w.claims[c].taskId == t;
          assert c in promoted;
        } else {
          assert order[|order| - 1] in promoted;
        }
      }
    }
  }

  lemma {:induction false} PromotedListed(env: Env, w: World, order: seq<string>, now: int)
    ensures forall c | c in SweepStep(env, w, order, now).1 :: c in order
  {
    if order != [] {
      PromotedListed(env, w, order[..|order| - 1], now);
    }
  }

  /** A second sweep at the same time promotes nothing, in whatever order it lists the claims. */
  lemma SweepIdempotent(env: Env, w: World, order: seq<string>, again: seq<string>, now: int)
    requires Inv(env, w) && ListsExecuting(w, order)
    requires ListsExecuting(SweepStep(env, w, order, now).0, again)
    ensures var w' := SweepStep(env, w, order, now).0;
      SweepStep(env, w', again, now) == (w', [])
  {
    var w' := SweepStep(env, w, order, now).0;
    SweepExact(env, w, order, now);
    forall c | c in again ensures c in w'.claims && !Stale(w'.claims[c], now) {
      assert c in w.claims;
    }
    NothingStale(env, w', again, now);
  }

  lemma {:induction false} NothingStale(env: Env, w: World, order: seq<string>, now: int)
    requires forall c | c in order :: c in w.claims && !Stale(w.claims[c], now)
    ensures SweepStep(env, w, order, now) == (w, [])
  {
    if order != [] {
      NothingStale(env, w, order[..|order| - 1], now);
    }
  }

  // ----- one call and one claim ------------------------------------------------------------------

  /** How a call other than an accepted attestation may change the state. */
  predicate PlainEdge(s: TaskState, s': TaskState) {
    || s == s'
    || (s == Claimed && s' == Executing)
    || (s == Executing && s' == Supervising)
    || (s == Supervising && s' == Executing)
    || (s != Posted && !Terminal(s) && s' == Aborted)
  }

  /** What a call does to an existing claim's task. */
  predicate Followed(t: Task, t': Task, attested: bool) {
    && t' == t.(state := t'.state, attemptsUsed := t.attemptsUsed + (if attested then 1 else 0))
    && (if attested then CanAttest(t.state) && t'.state in {Attesting, Completed, Rechecking, Voided}
        else PlainEdge(t.state, t'.state))
  }

  /** The call is an attestation of `c` that was judged. */
  ghost predicate Attested(env: Env, w: World, call: Call, c: string) {
    call.Attest? && call.claimId == c && Step(env, w, call).1.Judged?
  }

  ghost predicate Effect(w: World, w': World, c: string, attested: bool)
    requires TaskOf(w, c).Some?
  {
    && c in w'.claims && TaskOf(w', c).Some?
    && Followed(TaskOf(w, c).value, TaskOf(w', c).value, attested)
    && ClaimRows(w.rows, c) <= ClaimRows(w'.rows, c)
    && (Terminal(TaskOf(w, c).value.state) ==> ClaimRows(w'.rows, c) == ClaimRows(w.rows, c))
  }

  lemma MovedEffect(w: World, w': World, d: string, task: Task, added: seq<Row>, c: string, attested: bool)
    requires Linked(w) && Moved(w, w', d, task, added) && TaskOf(w, c).Some? && TaskOf(w, d).Some?
    requires !Terminal(TaskOf(w, d).value.state) && Followed(TaskOf(w, d).value, task, attested)
    ensures Effect(w, w', c, attested && c == d)
  {
    MovedTask(w, w', d, task, added, c);
    ClaimRowsAdded(w.rows, added, d, c);
    hide ClaimRows, Linked, TaskOf;
    assert ClaimRows(w.rows, c) + [] == ClaimRows(w.rows, c);
  }

  lemma SameEffect(w: World, w': World, c: string)
    requires TaskOf(w, c).Some? && c in w'.claims && TaskOf(w', c) == TaskOf(w, c) && w'.rows == w.rows
    ensures Effect(w, w', c, false)
  {
  }

  lemma NoTaskEffect(w: World, w': World, c: string)
    requires TaskOf(w, c).Some? && w' == w.(workers := w'.workers)
    ensures Effect(w, w', c, false)
  {
  }

  /** The effect of advancing claim `d`. */
  lemma AdvanceEffect(env: Env, w: World, w1: World, d: string, task: Task, eventType: string, actor: string,
                      payload: Dict, c: string)
    requires Linked(w) && d in w.claims && TaskOf(w, c).Some? && TaskOf(w, d).Some?
    requires w1 == w || (SameClaims(w.claims, w1.claims) && w1 == w.(claims := w1.claims))
    requires !Terminal(TaskOf(w, d).value.state) && Followed(TaskOf(w, d).value, task, false)
    ensures Effect(w, Advance(env, w1, d, task, eventType, actor, payload), c, false)
  {
    AdvanceMoves(env, w1, d, task, eventType, actor, payload);
    var w' := Advance(env, w1, d, task, eventType, actor, payload);
    hide Advance, Linked;
    var r := w'.rows[|w'.rows| - 1];
    assert Moved(w, w', d, task, [r]);
    MovedEffect(w, w', d, task, [r], c, false);
  }

  lemma RouteEffect(env: Env, w: World, stored: seq<EvidenceRow>, d: string, task: Task, decision: Decision, c: string)
    requires Inv(env, w) && TaskOf(w, c).Some? && TaskOf(w, d) == Some(task) && CanAttest(task.state)
    ensures Effect(w, Route(env, w.(evidence := w.evidence + stored), d, task, decision), c, d == c)
  {
    var w1 := w.(evidence := w.evidence + stored);
    hide Route, Inv, Linked, Authentic, Effect;
    InvParts(env, w);
    RouteMoves(env, w1, d, task, decision);
    var w' := Route(env, w1, d, task, decision);
    assert Moved(w, w', d, Routed(task, decision), w'.rows[|w.rows|..]);
    MovedEffect(w, w', d, Routed(task, decision), w'.rows[|w.rows|..], c, true);
  }

  lemma AttestEffect(env: Env, w: World, d: string, items: seq<Submission>, c: string)
    requires Inv(env, w) && TaskOf(w, c).Some?
    ensures var (w', reply) := AttestStep(env, w, d, items);
      Effect(w, w', c, d == c && reply.Judged?)
  {
    hide Route, Effect, Evaluate, Examine;
    var (w', reply) := AttestStep(env, w, d, items);
    if TaskOf(w, d).Some? && CanAttest(TaskOf(w, d).value.state) {
      var task, exam := TaskOf(w, d).value, Examine(d, w.claims[d].workerId, items);
      var w1 := w.(evidence := w.evidence + exam.stored);
      if !exam.failed {
        var decision := Evaluate(RequirementOf(task), exam.verdicts);
        RouteEffect(env, w, exam.stored, d, task, decision, c);
      } else {
        SameEffect(w, w', c);
      }
    } else {
      SameEffect(w, w', c);
    }
  }

  lemma ClaimEffect(env: Env, w: World, taskId: string, worker: string, bid: Option<string>,
                    etaOk: bool, acceptance: Acceptance, newClaim: string, now: int, c: string)
    requires Inv(env, w) && TaskOf(w, c).Some?
    ensures Effect(w, ClaimStep(env, w, taskId, worker, bid, etaOk, acceptance, newClaim, now).0, c, false)
  {
    var w' := ClaimStep(env, w, taskId, worker, bid, etaOk, acceptance, newClaim, now).0;
    if ClaimError(w, taskId, worker, etaOk, acceptance, newClaim, now).None? {
      ClaimShape(env, w, taskId, worker, bid, etaOk, acceptance, newClaim, now);
      assert Linked(w);
      hide Inv, ClaimStep, Effect, ClaimError;
      ClaimLinked(w, w', taskId, newClaim, Claim(taskId, worker, bid, true, Some(now)),
                  w.tasks[taskId].(state := Claimed));
      OtherRowEffect(w, w', w'.rows[|w'.rows| - 1], c);
    }
  }

  lemma OtherRowEffect(w: World, w': World, r: Row, c: string)
    requires TaskOf(w, c).Some? && c in w'.claims && TaskOf(w', c) == TaskOf(w, c)
    requires w'.rows == w.rows + [r] && !Names(r, c)
    ensures Effect(w, w', c, false)
  {
    hide ClaimRows, TaskOf;
    ClaimRowsAppend(w.rows, r, c);
    assert ClaimRows(w.rows, c) + [] == ClaimRows(w.rows, c);
  }

  lemma PostEffect(env: Env, w: World, taskId: string, d: Descriptor, expiry: Option<int>, c: string)
    requires Inv(env, w) && TaskOf(w, c).Some?
    ensures Effect(w, PostStep(env, w, taskId, d, expiry).0, c, false)
  {
    hide Inv, Linked, Effect, PostedPayload;
    InvParts(env, w);
    var w' := PostStep(env, w, taskId, d, expiry).0;
    if PostError(env, d).None? && expiry.Some? && taskId !in w.tasks {
      var e := Entry("task_posted", d.postedBy, PostedPayload(taskId, d), None, Some(taskId), env.clock(|w.rows|));
      var r := MakeRow(env.crypto, w.rows, e);
      assert w' == World(w.workers, w.tasks[taskId := Task(d, expiry.value, Posted, 0)], w.claims, w.evidence,
                         w.rows + [r]);
      PostLinked(w, w', taskId, Task(d, expiry.value, Posted, 0), r);
      OtherRowEffect(w, w', r, c);
    } else {
      SameEffect(w, w, c);
    }
  }

  lemma SweepEffect(env: Env, w: World, order: seq<string>, now: int, c: string)
    requires Inv(env, w) && TaskOf(w, c).Some? && ListsExecuting(w, order)
    ensures Effect(w, SweepStep(env, w, order, now).0, c, false)
  {
    hide Inv, ListsExecuting, SweepStep, Linked;
    SweepPrefixEffect(env, w, order, |order|, now, c);
    assert order[..|order|] == order;
  }

  /** Every call, for every claim: the task follows the lifecycle diagram, the claim's log only
      grows, the attempt counter moves only with a judged attestation, and a terminal task and
      its log never change again. */
  lemma StepEffect(env: Env, w: World, call: Call, c: string)
    requires Inv(env, w) && TaskOf(w, c).Some?
    ensures Effect(w, Step(env, w, call).0, c, Attested(env, w, call, c))
  {
    hide Effect, Inv, Linked, ListsExecuting, TaskOf;
    hide PostStep, ClaimStep, OpenStep, EventStep, SweepStep, AttestStep, SuperviseStep, AbortStep;
    InvParts(env, w);
    match call
    case UpsertWorker(worker, principal) => NoTaskEffect(w, w.(workers := w.workers[worker := principal]), c);
    case Post(taskId, d, expiry) => PostEffect(env, w, taskId, d, expiry, c);
    case ClaimTask(taskId, worker, bid, etaOk, acceptance, newClaim, now) =>
      ClaimEffect(env, w, taskId, worker, bid, etaOk, acceptance, newClaim, now, c);
    case ExecuteOpen(d, session) => OpenEffect(env, w, d, session, c);
    case ExecuteEvent(d, eventType, time, payload, sigOk) => EventEffect(env, w, d, eventType, time, payload, sigOk, c);
    case CheckHeartbeats(order, now) =>
      if ListsExecuting(w, order) {
        SweepEffect(env, w, order, now, c);
      } else {
        NoTaskEffect(w, w, c);
      }
    case Attest(d, items) => AttestEffect(env, w, d, items, c);
    case Supervise(d, reason, urgency) => SuperviseEffect(env, w, d, reason, urgency, c);
    case Abort(d, reason, snapshot) => AbortEffect(env, w, d, reason, snapshot, c);
  }

  lemma OpenEffect(env: Env, w: World, d: string, session: string, c: string)
    requires Linked(w) && TaskOf(w, c).Some?
    ensures Effect(w, OpenStep(env, w, d, session).0, c, false)
  {
    hide Effect, Linked, Advance;
    if OpenStep(env, w, d, session).1 == Accepted {
      AdvanceEffect(env, w, w, d, TaskOf(w, d).value.(state := Executing), "execution_started",
                    w.claims[d].workerId, StartedPayload(d, session), c);
    } else {
      SameEffect(w, w, c);
    }
  }

  lemma EventEffect(env: Env, w: World, d: string, eventType: string, time: Option<int>, payload: Dict,
                    sigOk: bool, c: string)
    requires Linked(w) && TaskOf(w, c).Some?
    ensures Effect(w, EventStep(env, w, d, eventType, time, payload, sigOk).0, c, false)
  {
    hide Effect, Linked, Advance;
    if EventStep(env, w, d, eventType, time, payload, sigOk).1 == Accepted {
      var claim := w.claims[d];
      var w1 := if eventType == "heartbeat"
                then w.(claims := w.claims[d := claim.(lastHeartbeat := time)]) else w;
      AdvanceEffect(env, w, w1, d, TaskOf(w, d).value, eventType, claim.workerId, payload, c);
    } else {
      SameEffect(w, w, c);
    }
  }

  lemma SuperviseEffect(env: Env, w: World, d: string, reason: string, urgency: string, c: string)
    requires Linked(w) && TaskOf(w, c).Some?
    ensures Effect(w, SuperviseStep(env, w, d, reason, urgency).0, c, false)
  {
    hide Effect, Linked, Advance;
    if SuperviseStep(env, w, d, reason, urgency).1 == Accepted {
      var task := TaskOf(w, d).value;
      var s := if task.state == Executing then Supervising else Executing;
      AdvanceEffect(env, w, w, d, task.(state := s), "supervision_handoff", w.claims[d].workerId,
                    HandoffPayload(d, reason, urgency, s), c);
    } else {
      SameEffect(w, w, c);
    }
  }

  lemma AbortEffect(env: Env, w: World, d: string, reason: string, snapshot: Dict, c: string)
    requires Linked(w) && TaskOf(w, c).Some?
    ensures Effect(w, AbortStep(env, w, d, reason, snapshot).0, c, false)
  {
    hide Effect, Advance, Linked;
    if AbortStep(env, w, d, reason, snapshot).1 == Accepted {
      var task := TaskOf(w, d).value;
      NotPosted(w, d);
      AdvanceEffect(env, w, w, d, task.(state := Aborted), "task_aborted", w.claims[d].workerId,
                    AbortedPayload(d, w.claims[d].taskId, reason, snapshot, task.descriptor.accountingRef), c);
    } else {
      SameEffect(w, w, c);
    }
  }

  lemma NotPosted(w: World, d: string)
    requires Linked(w) && TaskOf(w, d).Some?
    ensures TaskOf(w, d).value.state != Posted
  {
  }

  // ----- every run -------------------------------------------------------------------------------

  lemma RunNext(env: Env, calls: seq<Call>, call: Call)
    ensures Run(env, calls + [call]) == Step(env, Run(env, calls), call).0
  {
    assert (calls + [call])[..|calls|] == calls;
  }

  lemma TerminalStep(env: Env, w: World, call: Call, c: string)
    requires Inv(env, w) && TaskOf(w, c).Some? && Terminal(TaskOf(w, c).value.state)
    ensures var w' := Step(env, w, call).0;
      TaskOf(w', c) == TaskOf(w, c) && ClaimRows(w'.rows, c) == ClaimRows(w.rows, c)
  {
    hide Step, Inv, ClaimRows, TaskOf, Attested;
    StepEffect(env, w, call, c);
  }

  /** A completed, voided or aborted task stays as it is, and the log of its claim too, whatever
      calls follow: its terminal entry is the last one ever written for the claim. */
  lemma {:induction false} TerminalForever(env: Env, calls: seq<Call>, n: nat, c: string)
    requires n <= |calls|
    requires var w := Run(env, calls[..n]); TaskOf(w, c).Some? && Terminal(TaskOf(w, c).value.state)
    ensures var w, w' := Run(env, calls[..n]), Run(env, calls);
      TaskOf(w', c) == TaskOf(w, c) && ClaimRows(w'.rows, c) == ClaimRows(w.rows, c)
    decreases |calls|
  {
    hide Step, Inv, ClaimRows, TaskOf;
    if n < |calls| {
      var init := calls[..|calls| - 1];
      assert init[..n] == calls[..n];
      TerminalForever(env, init, n, c);
      RunKeeps(env, init);
      TerminalStep(env, Run(env, init), calls[|calls| - 1], c);
    } else {
      assert calls[..n] == calls;
    }
  }

  lemma ReviewStep(env: Env, w: World, call: Call, c: string)
    requires Inv(env, w) && TaskOf(w, c).Some? && TaskOf(w, c).value.state in {Attesting, Aborted}
    ensures var w' := Step(env, w, call).0; TaskOf(w', c).Some? && TaskOf(w', c).value.state in {Attesting, Aborted}
  {
    hide Step, Inv, ClaimRows, TaskOf, Attested;
    StepEffect(env, w, call, c);
  }

  /** A task left for review stays so until it is aborted: no follow-up call resolves it. */
  lemma {:induction false} ReviewOnlyAborts(env: Env, calls: seq<Call>, n: nat, c: string)
    requires n <= |calls|
    requires var w := Run(env, calls[..n]); TaskOf(w, c).Some? && TaskOf(w, c).value.state == Attesting
    ensures var w' := Run(env, calls);
      TaskOf(w', c).Some? && TaskOf(w', c).value.state in {Attesting, Aborted}
    decreases |calls|
  {
    hide Step, Inv, TaskOf;
    if n < |calls| {
      var init := calls[..|calls| - 1];
      assert init[..n] == calls[..n];
      ReviewOnlyAborts(env, init, n, c);
      RunKeeps(env, init);
      ReviewStep(env, Run(env, init), calls[|calls| - 1], c);
    } else {
      assert calls[..n] == calls;
    }
  }

  /** How many attestations of `c` the run judged. */
  ghost function JudgedAttests(env: Env, calls: seq<Call>, c: string): nat {
    if calls == [] then 0
    else
      var init := calls[..|calls| - 1];
      JudgedAttests(env, init, c) + (if Attested(env, Run(env, init), calls[|calls| - 1], c) then 1 else 0)
  }

  /** The attempts recorded for a claim are exactly the attestations judged for it, and no run
      gets more than the task's limit of them. */
  lemma {:induction false} AttemptsCounted(env: Env, calls: seq<Call>, c: string)
    ensures var w := Run(env, calls);
      if TaskOf(w, c).Some? then
        JudgedAttests(env, calls, c) == TaskOf(w, c).value.attemptsUsed
        && JudgedAttests(env, calls, c) <= Limit(TaskOf(w, c).value.descriptor)
      else JudgedAttests(env, calls, c) == 0
  {
    RunKeeps(env, calls);
    if calls != [] {
      var init, call := calls[..|calls| - 1], calls[|calls| - 1];
      AttemptsCounted(env, init, c);
      RunKeeps(env, init);
      var w := Run(env, init);
      if TaskOf(w, c).Some? {
        StepEffect(env, w, call, c);
      } else {
        NewClaimUnattested(env, w, call, c);
      }
      var w' := Run(env, calls);
      if TaskOf(w', c).Some? {
        InvTask(env, w', c);
      }
      hide Step, Inv, ClaimRows;
    }
  }

  lemma NewClaimUnattested(env: Env, w: World, call: Call, c: string)
    requires Inv(env, w) && TaskOf(w, c).None?
    ensures !Attested(env, w, call, c)
    ensures var w' := Step(env, w, call).0; TaskOf(w', c).Some? ==> TaskOf(w', c).value.attemptsUsed == 0
  {
    assert c !in w.claims;
    if call.ClaimTask? {
      NewClaimTask(env, w, call.taskId, call.workerId, call.bid, call.etaOk, call.acceptance,
                   call.newClaim, call.now, c);
    } else {
      OnlyClaimAddsClaims(env, w, call);
    }
  }

  lemma OnlyClaimAddsClaims(env: Env, w: World, call: Call)
    requires !call.ClaimTask?
    ensures Step(env, w, call).0.claims.Keys == w.claims.Keys
  {
    hide MakeRow, Evaluate, Examine, PostError, ListsExecuting, TimeoutPayload, Remaining, Terminal;
  }

  lemma NewClaimTask(env: Env, w: World, taskId: string, worker: string, bid: Option<string>,
                     etaOk: bool, acceptance: Acceptance, newClaim: string, now: int, c: string)
    requires Inv(env, w) && c !in w.claims
    ensures var w' := ClaimStep(env, w, taskId, worker, bid, etaOk, acceptance, newClaim, now).0;
      TaskOf(w', c).Some? ==> TaskOf(w', c).value.attemptsUsed == 0
  {
    if ClaimError(w, taskId, worker, etaOk, acceptance, newClaim, now).None? {
      assert TaskOk(w.tasks[taskId]);
    }
  }

  /** A posted task has no claim, so the second preemption test of `claim` never answers yes. */
  lemma SecondPreemptionNeverFires(env: Env, calls: seq<Call>, taskId: string)
    requires var w := Run(env, calls); taskId in w.tasks && w.tasks[taskId].state == Posted
    ensures !HasAcceptedClaim(Run(env, calls).claims, taskId)
  {
    RunKeeps(env, calls);
  }

  lemma PassingAttest(env: Env, w: World, c: string, items: seq<Submission>)
    requires Inv(env, w)
    requires AttestStep(env, w, c, items).1.Judged? && AttestStep(env, w, c, items).1.decision == Pass
    ensures var w' := AttestStep(env, w, c, items).0;
      && TaskOf(w, c).Some? && TaskOf(w', c).Some? && TaskOf(w', c).value.state == Completed
      && w.evidence <= w'.evidence
      && Backed(RequirementOf(TaskOf(w, c).value), w'.evidence[|w.evidence|..], c)
  {
    hide Route, Inv, Evaluate, Examine, Backed, Authentic, Moved, Linked;
    InvParts(env, w);
    var task, exam := TaskOf(w, c).value, Examine(c, w.claims[c].workerId, items);
    var w1 := w.(evidence := w.evidence + exam.stored);
    PassIsBacked(RequirementOf(task), c, w.claims[c].workerId, items);
    RouteMoves(env, w1, c, task, Pass);
    var w' := Route(env, w1, c, task, Pass);
    MovedSelf(w1, w', c, Routed(task, Pass), w'.rows[|w1.rows|..]);
    assert w1.evidence[|w.evidence|..] == exam.stored;
  }

  /** Only a passing decision completes a task. */
  lemma CompletedByPass(env: Env, w: World, c: string, items: seq<Submission>)
    requires Inv(env, w) && AttestStep(env, w, c, items).1.Judged?
    requires var w' := AttestStep(env, w, c, items).0; TaskOf(w', c).Some? && TaskOf(w', c).value.state == Completed
    ensures AttestStep(env, w, c, items).1.decision == Pass
  {
    hide Route, Inv, Evaluate, Examine, Authentic, Moved, Linked;
    InvParts(env, w);
    var task, exam := TaskOf(w, c).value, Examine(c, w.claims[c].workerId, items);
    var w1, d := w.(evidence := w.evidence + exam.stored), Evaluate(RequirementOf(task), exam.verdicts);
    RouteMoves(env, w1, c, task, d);
    var w' := Route(env, w1, c, task, d);
    MovedSelf(w1, w', c, Routed(task, d), w'.rows[|w1.rows|..]);
  }

  ghost predicate IsCompleted(w: World, c: string) {
    TaskOf(w, c).Some? && TaskOf(w, c).value.state == Completed
  }

  /** Whatever the call: if it completes the claim's task, it is an attestation of that claim,
      and the evidence rows it stores are by themselves what the task's requirement asks for. */
  lemma CompletionIsEarned(env: Env, w: World, call: Call, c: string)
    requires Inv(env, w) && !IsCompleted(w, c) && IsCompleted(Step(env, w, call).0, c)
    ensures call.Attest? && call.claimId == c && TaskOf(w, c).Some?
    ensures var w' := Step(env, w, call).0;
      && w.evidence <= w'.evidence
      && RequirementOf(TaskOf(w', c).value) == RequirementOf(TaskOf(w, c).value)
      && Backed(RequirementOf(TaskOf(w, c).value), w'.evidence[|w.evidence|..], c)
  {
    hide Inv, ClaimRows, Backed, AttestStep, TaskOf, Step;
    HadTask(env, w, call, c);
    StepEffect(env, w, call, c);
    assert Attested(env, w, call, c);
    IsAttest(env, w, call, c);
    CompletedByPass(env, w, c, call.items);
    PassingAttest(env, w, c, call.items);
  }

  lemma IsAttest(env: Env, w: World, call: Call, c: string)
    requires Attested(env, w, call, c)
    ensures call.Attest? && call.claimId == c && Step(env, w, call) == AttestStep(env, w, c, call.items)
  {
    hide AttestStep;
  }

  /** A task just claimed is not completed. */
  lemma HadTask(env: Env, w: World, call: Call, c: string)
    requires Inv(env, w) && IsCompleted(Step(env, w, call).0, c)
    ensures TaskOf(w, c).Some?
  {
    hide Step, TaskOf, Inv;
    StepKeeps(env, w, call);
    InvTask(env, Step(env, w, call).0, c);
    if TaskOf(w, c).None? {
      NewClaimUnattested(env, w, call, c);
    }
  }

  /** The call with number `n` of the run completes the task of `c` with evidence of its own. */
  ghost predicate CompletedBy(env: Env, calls: seq<Call>, n: nat, c: string)
    requires n < |calls|
  {
    var w, w' := Run(env, calls[..n]), Run(env, calls[..n + 1]);
    && calls[n].Attest? && calls[n].claimId == c && TaskOf(w', c).Some?
    && !IsCompleted(w, c) && IsCompleted(w', c) && w.evidence <= w'.evidence
    && Backed(RequirementOf(TaskOf(w', c).value), w'.evidence[|w.evidence|..], c)
  }

  /** Over every run: behind every completed task stands one attestation call, which completed it
      and by itself stored the evidence its requirement asks for. */
  lemma {:induction false} CompletedRun(env: Env, calls: seq<Call>, c: string) returns (n: nat)
    requires IsCompleted(Run(env, calls), c)
    ensures n < |calls| && CompletedBy(env, calls, n, c)
    ensures TaskOf(Run(env, calls), c) == TaskOf(Run(env, calls[..n + 1]), c)
  {
    hide Step, Inv, Backed, ClaimRows, Run, TaskOf;
    NothingCompleted(env, c);
    var init := calls[..|calls| - 1];
    RunLast(env, calls);
    RunKeeps(env, init);
    assert calls[..|calls|] == calls;
    if IsCompleted(Run(env, init), c) {
      n := CompletedRun(env, init, c);
      assert init[..n] == calls[..n] && init[..n + 1] == calls[..n + 1];
      TerminalForever(env, calls, n + 1, c);
    } else {
      n := |calls| - 1;
      CompletionIsEarned(env, Run(env, init), calls[n], c);
    }
  }

  lemma NothingCompleted(env: Env, c: string)
    ensures !IsCompleted(Run(env, []), c)
  {
  }

  lemma RunLast(env: Env, calls: seq<Call>)
    requires calls != []
    ensures Run(env, calls) == Step(env, Run(env, calls[..|calls| - 1]), calls[|calls| - 1]).0
  {
  }

  /** The terminal entry of a claim's log: there is one exactly when the task is terminal, it is
      the last entry, and it names the state. */
  lemma TerminalEntry(log: seq<Row>, task: Task)
    requires LogOk(log, task)
    ensures (exists i | 0 <= i < |log| :: IsTerminal(log[i])) <==> Terminal(task.state)
    ensures Terminal(task.state) ==> log != [] && log[|log| - 1].entry.eventType == TerminalName(task.state)
  {
    hide Replay, KindOf, Next, IsTerminal, TerminalName, Numbered, Attempts;
    TerminalSource(log);
    if log != [] {
      LastEntry(log, log[|log| - 1]);
    }
    if exists i | 0 <= i < |log| :: IsTerminal(log[i]) {
      var i :| 0 <= i < |log| && IsTerminal(log[i]);
      assert i == |log| - 1;
    }
  }

  lemma LastEntry(log: seq<Row>, r: Row)
    requires log != [] && r == log[|log| - 1]
    ensures IsTerminal(r) ==> Terminal(Replay(log).state) && r.entry.eventType == TerminalName(Replay(log).state)
  {
    var v, name, payload := Replay(log[..|log| - 1]), r.entry.eventType, r.entry.payload;
    assert Replay(log) == Next(v, name, payload);
    hide Replay, Next, KindOf, TerminalName;
    NextTerminal(v, name, payload);
  }

  lemma NextTerminal(v: View, name: string, payload: Dict)
    ensures KindOf(name) in {KCompleted, KVoided, KAborted} ==>
      Terminal(Next(v, name, payload).state) && name == TerminalName(Next(v, name, payload).state)
  {
    TerminalKinds(name);
    hide KindOf;
  }

  lemma TerminalKinds(name: string)
    ensures KindOf(name) == KCompleted ==> name == "task_completed"
    ensures KindOf(name) == KVoided ==> name == "task_voided"
    ensures KindOf(name) == KAborted ==> name == "task_aborted"
  {
  }

  /** A reader only ever sees a terminal state because of a terminal entry. */
  lemma {:induction false} TerminalSource(log: seq<Row>)
    ensures Terminal(Replay(log).state) ==> exists i | 0 <= i < |log| :: IsTerminal(log[i])
  {
    if log != [] {
      var init := log[..|log| - 1];
      TerminalSource(init);
      if IsTerminal(log[|log| - 1]) {
      } else if Terminal(Replay(log).state) {
        var i :| 0 <= i < |init| && IsTerminal(init[i]);
        assert IsTerminal(log[i]);
      }
    }
  }

  function TerminalName(s: TaskState): string {
    match s case Completed => "task_completed" case Voided => "task_voided" case _ => "task_aborted"
  }
}
