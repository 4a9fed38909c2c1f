/** The decisions an observer reads from a claim's log are those the coordinator gave. */
module ObservedDecisions {
  import opened Basics
  import opened JsonText
  import opened AuditChain
  import opened AuditProofs
  import opened Threshold
  import opened Lifecycle
  import opened LifecycleInvariants
  import opened LifecycleLog
  import opened LifecycleRuns
  import opened LifecycleLaws
  import opened LifecycleEntries
  import opened TasksService

  /** The decisions among entries yet to be written. */
  function NotedDecisions(notes: seq<Note>, c: string): seq<JSON> {
    if notes == [] then []
    else
      var n := notes[|notes| - 1];
      NotedDecisions(notes[..|notes| - 1], c)
      + (if n.eventType == "attestation_attempt" && n.claimId == Some(c) then [DecisionOf(n.payload)] else [])
  }

  function ReadDecisions(rows: seq<Row>, c: string): seq<JSON> { Decisions(ClaimRows(rows, c)) }

  lemma ReadNext(rows: seq<Row>, r: Row, n: Note, c: string)
    requires Says(r, n)
    ensures ReadDecisions(rows + [r], c)
         == ReadDecisions(rows, c)
            + (if n.eventType == "attestation_attempt" && n.claimId == Some(c) then [DecisionOf(n.payload)] else [])
  {
    ClaimRowsAppend(rows, r, c);
    var log := ClaimRows(rows, c);
    assert (log + [r])[..|log|] == log && log + [] == log;
    assert Decisions(log) + [] == Decisions(log);
  }

  lemma {:induction false} WroteDecisions(w: World, w': World, notes: seq<Note>, c: string)
    requires Wrote(w, w', notes)
    ensures ReadDecisions(w'.rows, c) == ReadDecisions(w.rows, c) + NotedDecisions(notes, c)
    decreases |notes|
  {
    hide ReadDecisions;
    if notes == [] {
      assert w'.rows == w.rows;
    } else {
      var init, n := notes[..|notes| - 1], notes[|notes| - 1];
      var w0, r := w'.(rows := w'.rows[..|w'.rows| - 1]), w'.rows[|w'.rows| - 1];
      assert Wrote(w, w0, init);
      WroteDecisions(w, w0, init, c);
      assert w'.rows == w0.rows + [r];
      ReadNext(w0.rows, r, n, c);
    }
  }

  lemma NoneNoted(notes: seq<Note>, c: string)
    requires forall i | 0 <= i < |notes| :: notes[i].eventType != "attestation_attempt"
    ensures NotedDecisions(notes, c) == []
  {
  }

  /** The decisions the coordinator gave on the claim, in order. */
  ghost function Given(env: Env, calls: seq<Call>, c: string): seq<JSON> {
    if calls == [] then []
    else
      var init, call := calls[..|calls| - 1], calls[|calls| - 1];
      Given(env, init, c)
      + (if Attested(env, Run(env, init), call, c)
         then [JString(Word(Step(env, Run(env, init), call).1.decision))] else [])
  }

  lemma AttestDecisions(env: Env, w: World, d: string, items: seq<Submission>, c: string)
    ensures var (w', reply) := AttestStep(env, w, d, items);
      ReadDecisions(w'.rows, c)
      == ReadDecisions(w.rows, c) + (if d == c && reply.Judged? then [JString(Word(reply.decision))] else [])
  {
    hide ReadDecisions, AttestStep, Wrote, SignedItems, StoredFor, InState, NotedDecisions, VerdictNotes, AttemptNote;
    var (w', reply) := AttestStep(env, w, d, items);
    if InState(w, d, {Executing, Supervising, Rechecking}) && AllStorable(items) {
      AttestEntries(env, w, d, items);
      KnownClaim(w, d);
      var verdict := VerdictNotes(w, d, reply.attemptNumber, reply.attemptsRemaining, reply.decision,
                                  env.reasons(|w.rows| + 1), w.tasks[w.claims[d].taskId].descriptor.accountingRef);
      WroteDecisions(w, w', [AttemptNote(w, d, reply.attemptNumber, reply.decision)] + verdict, c);
      VerdictIsNoAttempt(w, d, reply.attemptNumber, reply.attemptsRemaining, reply.decision,
                         env.reasons(|w.rows| + 1), w.tasks[w.claims[d].taskId].descriptor.accountingRef);
      AttemptNoted(w, d, reply.attemptNumber, reply.decision, verdict, c);
    } else {
      var k := FirstUnstorable(items);
      AttestRefused(env, w, d, items, k);
    }
  }

  lemma KnownClaim(w: World, d: string)
    requires InState(w, d, {Executing, Supervising, Rechecking})
    ensures d in w.claims && w.claims[d].taskId in w.tasks
  {
  }

  lemma {:induction false} FirstUnstorable(items: seq<Submission>) returns (k: nat)
    ensures !AllStorable(items) ==> k < |items| && Unstorable(items[k]) && AllStorable(items[..k])
  {
    k := 0;
    if items != [] {
      var init := items[..|items| - 1];
      k := FirstUnstorable(init);
      if !AllStorable(init) {
        assert init[..k] == items[..k];
      } else {
        k := |items| - 1;
        assert items[..k] == init;
        assert !AllStorable(items) ==> Unstorable(items[k]) by {
          assert forall i | 0 <= i < |init| :: !Unstorable(init[i]) && init[i] == items[i];
        }
      }
    }
  }

  lemma AttemptNoted(w: World, d: string, n: nat, decision: Decision, verdict: seq<Note>, c: string)
    requires d in w.claims
    requires |verdict| <= 1 && forall i | 0 <= i < |verdict| :: verdict[i].eventType != "attestation_attempt"
    ensures NotedDecisions([AttemptNote(w, d, n, decision)] + verdict, c)
         == if d == c then [JString(Word(decision))] else []
  {
    var a := AttemptNote(w, d, n, decision);
    assert [a][..0] == [];
    assert NotedDecisions([a], c) == if d == c then [JString(Word(decision))] else [];
    if verdict == [] {
      assert [a] + verdict == [a];
    } else {
      assert ([a] + verdict)[..1] == [a] && ([a] + verdict)[1] == verdict[0];
    }
  }

  lemma VerdictIsNoAttempt(w: World, c: string, n: nat, remaining: nat, d: Decision, reasons: seq<string>, ref: JSON)
    requires c in w.claims
    ensures var notes := VerdictNotes(w, c, n, remaining, d, reasons, ref);
      |notes| <= 1 && forall i | 0 <= i < |notes| :: notes[i].eventType != "attestation_attempt"
  {
  }

  lemma SweepDecisions(env: Env, w: World, order: seq<string>, now: int, c: string)
    ensures ReadDecisions(SweepStep(env, w, order, now).0.rows, c) == ReadDecisions(w.rows, c)
  {
    hide ReadDecisions, SweepStep, Wrote;
    SweepEntries(env, w, order, now);
    var (w', promoted) := SweepStep(env, w, order, now);
    WroteDecisions(w, w', TimeoutNotes(w, promoted), c);
    NoneNoted(TimeoutNotes(w, promoted), c);
    assert ReadDecisions(w.rows, c) + [] == ReadDecisions(w.rows, c);
  }

  /** A call that writes one entry, which is no attempt, leaves the decisions as they are. */
  lemma OneEntry(w: World, w': World, n: Note, c: string)
    requires Wrote(w, w', [n]) && n.eventType != "attestation_attempt"
    ensures ReadDecisions(w'.rows, c) == ReadDecisions(w.rows, c)
  {
    hide ReadDecisions;
    WroteDecisions(w, w', [n], c);
    NoneNoted([n], c);
    assert ReadDecisions(w.rows, c) + [] == ReadDecisions(w.rows, c);
  }

  lemma PostDecisions(env: Env, w: World, taskId: string, d: Descriptor, expiry: Option<int>, c: string)
    ensures ReadDecisions(PostStep(env, w, taskId, d, expiry).0.rows, c) == ReadDecisions(w.rows, c)
  {
    hide ReadDecisions, PostStep, Postable, Wrote;
    PostExactly(env, w, taskId, d, expiry);
    var w' := PostStep(env, w, taskId, d, expiry).0;
    if PostStep(env, w, taskId, d, expiry).1 == Accepted {
      PostEntries(env, w, taskId, d, expiry);
      OneEntry(w, w', Note("task_posted", d.postedBy, w'.rows[|w'.rows| - 1].entry.payload, None, taskId), c);
    }
  }

  lemma ClaimDecisions(env: Env, w: World, taskId: string, worker: string, bid: Option<string>, etaOk: bool,
                       acceptance: Acceptance, newClaim: string, now: int, c: string)
    ensures ReadDecisions(ClaimStep(env, w, taskId, worker, bid, etaOk, acceptance, newClaim, now).0.rows, c)
         == ReadDecisions(w.rows, c)
  {
    hide ReadDecisions, ClaimStep, Claimable, Wrote;
    ClaimExactly(env, w, taskId, worker, bid, etaOk, acceptance, newClaim, now);
    var (w', reply) := ClaimStep(env, w, taskId, worker, bid, etaOk, acceptance, newClaim, now);
    if reply == Accepted {
      ClaimEntries(env, w, taskId, worker, bid, etaOk, acceptance, newClaim, now);
      OneEntry(w, w', Note("task_claimed", worker,
                           map["task_id" := JString(taskId), "claim_id" := JString(newClaim),
                               "bid" := if bid.None? then JNull else JString(bid.value)], Some(newClaim), taskId), c);
    }
  }

  /** Opening, supervision, abort and a worker's event write one entry, named by the call. */
  lemma OtherDecisions(env: Env, w: World, call: Call, c: string)
    requires call.ExecuteOpen? || call.Supervise? || call.Abort?
             || (call.ExecuteEvent? && (Step(env, w, call).1 == Accepted ==> call.eventType != "attestation_attempt"))
    ensures ReadDecisions(Step(env, w, call).0.rows, c) == ReadDecisions(w.rows, c)
  {
    hide ReadDecisions, Wrote, OpenStep, EventStep, SuperviseStep, AbortStep, Became;
    var (w', reply) := Step(env, w, call);
    match call
    case ExecuteOpen(d, session) =>
      OpenExactly(env, w, d, session);
      if reply == Accepted {
        OpenEntries(env, w, d, session);
        OneEntry(w, w', Note("execution_started", w.claims[d].workerId,
                             map["claim_id" := JString(d), "session_id" := JString(session)],
                             Some(d), w.claims[d].taskId), c);
      }
    case ExecuteEvent(d, eventType, time, payload, sigOk) =>
      EventAcceptedExactly(env, w, d, eventType, time, payload, sigOk);
      if reply == Accepted {
        EventEntries(env, w, d, eventType, time, payload, sigOk);
        OneEntry(w, w', Note(eventType, w.claims[d].workerId, payload, Some(d), w.claims[d].taskId), c);
      }
    case Supervise(d, reason, urgency) =>
      SuperviseExactly(env, w, d, reason, urgency);
      if reply == Accepted {
        SuperviseEntries(env, w, d, reason, urgency);
        OneEntry(w, w', Note("supervision_handoff", w.claims[d].workerId,
                             map["claim_id" := JString(d), "handoff_reason" := JString(reason),
                                 "urgency" := JString(urgency),
                                 "new_state" := JString(if InState(w, d, {Executing}) then "supervising"
                                                        else "executing")],
                             Some(d), w.claims[d].taskId), c);
      }
    case Abort(d, reason, snapshot) =>
      AbortExactly(env, w, d, reason, snapshot);
      if reply == Accepted {
        AbortEntries(env, w, d, reason, snapshot);
        OneEntry(w, w', Note("task_aborted", w.claims[d].workerId,
                             map["claim_id" := JString(d), "task_id" := JString(w.claims[d].taskId),
                                 "reason" := JString(reason), "state_snapshot" := JObject(snapshot),
                                 "accounting_ref" := w.tasks[w.claims[d].taskId].descriptor.accountingRef],
                             Some(d), w.claims[d].taskId), c);
      }
  }

  lemma StepDecisions(env: Env, w: World, call: Call, c: string)
    requires HarmlessCall(env, w, call)
    ensures ReadDecisions(Step(env, w, call).0.rows, c)
         == ReadDecisions(w.rows, c)
            + (if Attested(env, w, call, c) then [JString(Word(Step(env, w, call).1.decision))] else [])
  {
    hide ReadDecisions, PostStep, ClaimStep, OpenStep, EventStep, SweepStep, AttestStep, SuperviseStep, AbortStep;
    assert ReadDecisions(w.rows, c) + [] == ReadDecisions(w.rows, c);
    match call
    case UpsertWorker(_, _) =>
    case Post(taskId, d, expiry) => PostDecisions(env, w, taskId, d, expiry, c);
    case ClaimTask(taskId, worker, bid, etaOk, acceptance, newClaim, now) =>
      ClaimDecisions(env, w, taskId, worker, bid, etaOk, acceptance, newClaim, now, c);
    case CheckHeartbeats(order, now) => SweepDecisions(env, w, order, now, c);
    case Attest(d, items) => AttestDecisions(env, w, d, items, c);
    case _ => OtherDecisions(env, w, call, c);
  }

  /** Over every run whose accepted worker events are harmless: the k-th attempt in a claim's log shows
      the decision that the k-th judged attestation of the claim was answered with. */
  lemma {:induction false} DecisionsTold(env: Env, calls: seq<Call>, c: string)
    requires HarmlessRun(env, calls)
    ensures ReadDecisions(Run(env, calls).rows, c) == Given(env, calls, c)
  {
    hide HarmlessCall, HarmlessRun, ReadDecisions, Step;
    if calls == [] {
      NothingRead(env, c);
    } else {
      var n := |calls| - 1;
      HarmlessPrefix(env, calls, n);
      DecisionsTold(env, calls[..n], c);
      HarmlessAt(env, calls, n);
      StepDecisions(env, Run(env, calls[..n]), calls[n], c);
    }
  }

  lemma NothingRead(env: Env, c: string)
    ensures ReadDecisions(Run(env, []).rows, c) == []
  {
  }
}
