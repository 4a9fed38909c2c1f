/** Runs that reach the states in which the coordinator differs from its documentation. */
module LifecycleExamples {
  import opened Basics
  import opened JsonText
  import opened AuditChain
  import opened AuditProofs
  import opened Threshold
  import opened Lifecycle
  import opened LifecycleInvariants
  import opened LifecycleLog
  import opened LifecycleRuns

  const POSTER := "did:wcp:poster"
  const MODE := "sensor-witness"

  const REVIEWED := Descriptor(POSTER, "inspection", false, false, false,
                               Some(Requirement([MODE], Some("any"), None, None)), [], None, JNull, None, None)

  const TO_EXECUTING: seq<Call> := [
    UpsertWorker("worker", "principal"),
    Post("task", REVIEWED, Some(0)),
    ClaimTask("task", "worker", None, true, Signed, "claim", 0),
    ExecuteOpen("claim", "session")]

  /** A poster whose identifier resolves, with nothing else assumed of the coordinator. */
  predicate Served(env: Env) { env.resolves(POSTER) }

  function Executed(s: TaskState, attempts: nat): Task { Task(REVIEWED, 0, s, attempts) }

  lemma Posting(env: Env)
    requires Served(env)
    ensures var w := Run(env, TO_EXECUTING[..2]);
      "task" in w.tasks && w.tasks["task"] == Executed(Posted, 0)
      && w.workers == map["worker" := "principal"] && w.claims == map[]
  {
    hide MakeRow, PostedPayload;
    assert TO_EXECUTING[..2] == [] + [TO_EXECUTING[0]] + [TO_EXECUTING[1]];
    RunNext(env, [], TO_EXECUTING[0]);
    RunNext(env, [] + [TO_EXECUTING[0]], TO_EXECUTING[1]);
    assert PostError(env, REVIEWED) == None;
  }

  lemma Executes(env: Env)
    requires Served(env)
    ensures var w := Run(env, TO_EXECUTING);
      TaskOf(w, "claim") == Some(Executed(Executing, 0)) && w.claims["claim"].workerId == "worker"
  {
    hide MakeRow, Run, PostStep;
    Posting(env);
    var p2 := TO_EXECUTING[..2];
    var p3 := p2 + [TO_EXECUTING[2]];
    assert TO_EXECUTING == p3 + [TO_EXECUTING[3]];
    RunNext(env, p2, TO_EXECUTING[2]);
    RunNext(env, p3, TO_EXECUTING[3]);
  }

  /** A worker logs `task_completed` as an event of its own: whoever reads the log takes the task
      for completed while it is still executing, and no evidence was ever submitted. */
  lemma LogMisleads(env: Env)
    requires Served(env)
    ensures var w := Run(env, TO_EXECUTING + [ExecuteEvent("claim", "task_completed", None, map[], true)]);
      && TaskOf(w, "claim") == Some(Executed(Executing, 0)) && w.evidence == Run(env, TO_EXECUTING).evidence
      && Replay(ClaimRows(w.rows, "claim")).state == Completed
  {
    hide Run, Advance, Replay, ClaimRows;
    Executes(env);
    RunNext(env, TO_EXECUTING, ExecuteEvent("claim", "task_completed", None, map[], true));
    var w := Run(env, TO_EXECUTING);
    AdvanceMoves(env, w, "claim", Executed(Executing, 0), "task_completed", "worker", map[]);
    var w' := Advance(env, w, "claim", Executed(Executing, 0), "task_completed", "worker", map[]);
    var r := w'.rows[|w'.rows| - 1];
    MovedSelf(w, w', "claim", Executed(Executing, 0), [r]);
    ReadsCompleted(w.rows, r);
  }

  lemma ReadsCompleted(rows: seq<Row>, r: Row)
    requires Names(r, "claim") && r.entry.eventType == "task_completed"
    ensures Replay(ClaimRows(rows + [r], "claim")).state == Completed
  {
    var log := ClaimRows(rows, "claim");
    ClaimRowsAppend(rows, r, "claim");
    assert (log + [r])[..|log|] == log;
    NextOf(Replay(log), r.entry.payload);
    hide Next, KindOf;
  }

  /** One piece of evidence that its verifier leaves for review leaves the task in ATTESTING,
      from where no call but an abort ever takes it (`LifecycleRuns.ReviewOnlyAborts`). */
  lemma ReviewReached(env: Env)
    requires Served(env)
    ensures var w := Run(env, TO_EXECUTING + [Attest("claim", [Submission(MODE, "kind", Some(0), true, Review)])]);
      TaskOf(w, "claim") == Some(Executed(Attesting, 1))
  {
    hide Run, Advance;
    Executes(env);
    var items := [Submission(MODE, "kind", Some(0), true, Review)];
    RunNext(env, TO_EXECUTING, Attest("claim", items));
    var w := Run(env, TO_EXECUTING);
    OneReview();
    var w1 := w.(evidence := w.evidence + Examine("claim", "worker", items).stored);
    var payload := AttemptPayload("claim", 1, Review);
    AdvanceMoves(env, w1, "claim", Executed(Attesting, 1), "attestation_attempt", "worker", payload);
    var w' := Advance(env, w1, "claim", Executed(Attesting, 1), "attestation_attempt", "worker", payload);
    MovedSelf(w1, w', "claim", Executed(Attesting, 1), [w'.rows[|w'.rows| - 1]]);
  }

  lemma OneReview()
    ensures var exam := Examine("claim", "worker", [Submission(MODE, "kind", Some(0), true, Review)]);
      !exam.failed && Evaluate(RequirementOf(Executed(Executing, 0)), exam.verdicts) == Review
  {
    var items := [Submission(MODE, "kind", Some(0), true, Review)];
    assert Examine("claim", "worker", items[..0]) == Exam([], [], false);
    var vs := Examine("claim", "worker", items).verdicts;
    assert vs == [Verdict(MODE, Review)];
    CountOne(vs[0]);
  }

  lemma CountOne(v: Verdict)
    ensures forall d :: CountOf([v], d) == if v.decision == d then 1 else 0
  {
    assert [v][..0] == [];
    assert forall d :: CountOf([], d) == 0;
  }
}
