/**
 Federation: how a claim's audit rows are exported to a peer as plain dicts, how the peer
 checks and imports them, and what the import tells about the task.
*/
module Federation {
  import opened Basics
  import opened JsonText
  import opened Canonical
  import CanonicalEncoders
  import opened AuditChain
  import opened AuditProofs
  import opened Lifecycle
  import opened LifecycleInvariants
  import opened LifecycleLog
  import opened LifecycleRuns

  /** A key of a dict that may be absent, or there with the value null. */
  datatype Member = Absent | Null | Text(value: string)

  /** `d.get(key)` */
  function Got(m: Member): Option<string> {
    match m case Text(t) => Some(t) case _ => None
  }

  /** An entry as a peer sends it. Any key may be absent; where a key is only ever read with
      `get`, an absent one and a null one are the same. */
  datatype Exported = Exported(eventType: Option<string>, actor: Option<string>, timestamp: JSON,
                               payload: Option<Dict>, payloadHash: Option<string>, prevHash: Option<string>,
                               thisHash: Member, claimId: Option<string>, taskId: Option<string>)

  /** What the federation endpoint sends for a row. */
  function Export(r: Row): Exported {
    Exported(Some(r.entry.eventType), Some(r.entry.actor), JInt(r.entry.timestamp), Some(r.entry.payload),
             Some(r.payloadHash), r.prevHash, Text(r.thisHash), r.entry.claimId, r.entry.taskId)
  }

  function ExportAll(rs: seq<Row>): (es: seq<Exported>)
    ensures |es| == |rs| && forall i | 0 <= i < |rs| :: es[i] == Export(rs[i])
  {
    seq(|rs|, i requires 0 <= i < |rs| => Export(rs[i]))
  }

  /** `x or None`: the empty string counts as absent. */
  function OrNone(x: Option<string>): Option<string> {
    if x == Some("") then None else x
  }

  function PayloadOf(e: Exported): Dict {
    match e.payload case None => map[] case Some(p) => p
  }

  function SegmentJson(e: Exported): JSON {
    JObject(map["event_type" := OptionJson(e.eventType),
                "actor_did" := OptionJson(e.actor),
                "timestamp" := e.timestamp,
                "payload_hash" := OptionJson(e.payloadHash),
                "prev_hash" := JString(OrEmpty(e.prevHash)),
                "claim_id" := JString(OrEmpty(e.claimId)),
                "task_id" := JString(OrEmpty(e.taskId))])
  }

  /** The checks `verify_chain_segment` makes of one entry. */
  ghost predicate EntryOk(hash: string -> string, e: Exported, prev: Option<string>) {
    && OrNone(e.prevHash) == prev
    && e.payloadHash == Some(hash(PayloadBytes(PayloadOf(e))))
    && Got(e.thisHash) == Some(hash(Canon(Python, SegmentJson(e))))
  }

  function PrevOf(es: seq<Exported>, i: nat): Option<string>
    requires i <= |es|
  {
    if i == 0 then None else Got(es[i - 1].thisHash)
  }

  ghost predicate SegmentOk(hash: string -> string, es: seq<Exported>) {
    forall i | 0 <= i < |es| :: EntryOk(hash, es[i], PrevOf(es, i))
  }

  method CheckEntry(hash: string -> string, e: Exported, prev: Option<string>) returns (ok: bool)
    ensures ok <==> EntryOk(hash, e, prev)
  {
    if OrNone(e.prevHash) != prev {
      return false;
    }
    var payloadBytes := CanonicalEncoders.CanonicalJson(Python, JObject(PayloadOf(e)));
    if Some(hash(payloadBytes)) != e.payloadHash {
      return false;
    }
    var linkBytes := CanonicalEncoders.CanonicalJson(Python, SegmentJson(e));
    ok := Some(hash(linkBytes)) == Got(e.thisHash);
  }

  method VerifyChainSegment(hash: string -> string, es: seq<Exported>) returns (ok: bool)
    ensures ok <==> SegmentOk(hash, es)
  {
    hide EntryOk;
    var prev: Option<string> := None;
    for i := 0 to |es|
      invariant prev == PrevOf(es, i)
      invariant forall j | 0 <= j < i :: EntryOk(hash, es[j], PrevOf(es, j))
    {
      ok := CheckEntry(hash, es[i], prev);
      if !ok {
        return;
      }
      prev := Got(es[i].thisHash);
    }
    ok := true;
  }

  // ----- what the segment check keeps of the full check ------------------------------------

  ghost predicate SignaturesOk(c: Crypto, rs: seq<Row>) {
    forall i | 0 <= i < |rs| :: c.verify(LinkBytes(rs[i].entry, rs[i].payloadHash, rs[i].prevHash), rs[i].sig)
  }

  lemma ExportedLink(r: Row)
    ensures SegmentJson(Export(r)) == LinkJson(r.entry, r.payloadHash, r.prevHash)
    ensures PayloadOf(Export(r)) == r.entry.payload
  {
  }

  lemma RowAndEntry(c: Crypto, r: Row, prev: Option<string>)
    requires prev != Some("")
    ensures RowOk(c, r, prev)
       <==> EntryOk(c.hash, Export(r), prev) && c.verify(LinkBytes(r.entry, r.payloadHash, r.prevHash), r.sig)
            && r.prevHash != Some("")
  {
    ExportedLink(r);
    hide Canon, LinkJson, SegmentJson;
  }

  /** The check a peer makes of an export accepts exactly what the full check accepts, but for
      the signatures, which it does not read, and for a first entry whose link is the empty
      string, which it takes for none. */
  lemma ExportExactly(c: Crypto, rs: seq<Row>)
    requires Sound(c)
    ensures ChainOk(c, rs) <==>
      SegmentOk(c.hash, ExportAll(rs)) && SignaturesOk(c, rs) && (rs != [] ==> rs[0].prevHash != Some(""))
  {
    var es := ExportAll(rs);
    hide RowOk, EntryOk, Sound, LinkBytes;
    if ChainOk(c, rs) {
      forall i | 0 <= i < |rs|
        ensures EntryOk(c.hash, es[i], PrevOf(es, i))
        ensures c.verify(LinkBytes(rs[i].entry, rs[i].payloadHash, rs[i].prevHash), rs[i].sig)
        ensures rs[i].prevHash != Some("")
      {
        HashNotEmpty(c, rs, i);
        RowAndEntry(c, rs[i], PrevIn(rs, i));
      }
    }
    if SegmentOk(c.hash, es) && SignaturesOk(c, rs) && (rs != [] ==> rs[0].prevHash != Some("")) {
      forall i | 0 <= i < |rs| ensures RowOk(c, rs[i], PrevIn(rs, i)) {
        EntryLinks(c, es, i);
        RowAndEntry(c, rs[i], PrevIn(rs, i));
      }
    }
  }

  lemma HashNotEmpty(c: Crypto, rs: seq<Row>, i: nat)
    requires Sound(c) && ChainOk(c, rs) && i <= |rs|
    ensures PrevIn(rs, i) != Some("")
  {
    if i > 0 {
      assert RowOk(c, rs[i - 1], PrevIn(rs, i - 1));
    }
  }

  lemma EntryLinks(c: Crypto, es: seq<Exported>, i: nat)
    requires Sound(c) && SegmentOk(c.hash, es) && i < |es|
    ensures PrevOf(es, i) != Some("") && (i > 0 ==> es[i].prevHash == PrevOf(es, i) != None)
  {
    assert EntryOk(c.hash, es[i], PrevOf(es, i));
    if i > 0 {
      assert EntryOk(c.hash, es[i - 1], PrevOf(es, i - 1));
    }
  }

  /** Export soundness: every prefix of a chain that verifies is accepted by a peer. */
  lemma ExportSound(c: Crypto, rs: seq<Row>, n: nat)
    requires Sound(c) && ChainOk(c, rs) && n <= |rs|
    ensures SegmentOk(c.hash, ExportAll(rs[..n]))
  {
    PrefixOk(c, rs, n);
    ExportExactly(c, rs[..n]);
  }

  // ----- importing a peer's chain -------------------------------------------------------------

  predicate IsCompletion(eventType: Option<string>) {
    eventType in {Some("task_completed"), Some("task_voided"), Some("task_aborted")}
  }

  /** The last completion event in the segment. */
  function CompletionEvent(es: seq<Exported>): Option<string> {
    if es == [] then None
    else if IsCompletion(es[|es| - 1].eventType) then es[|es| - 1].eventType
    else CompletionEvent(es[..|es| - 1])
  }

  datatype Import =
    | NotAllowed
    | NoFetcher
    | NoTerminalHash
    | Imported(ok: bool, entries: nat, terminalHash: Option<string>, completionEvent: Option<string>)

  function BoolJson(b: bool): JSON { JBool(b) }

  function ImportPayload(peerDid: string, claimId: string, r: Import): Dict
    requires r.Imported?
  {
    map["peer_coordinator_did" := JString(peerDid), "claim_id" := JString(claimId), "entries" := JInt(r.entries),
        "terminal_hash" := OptionJson(r.terminalHash), "completion_event" := OptionJson(r.completionEvent),
        "ok" := BoolJson(r.ok)]
  }

  class AuditExport {
    const audit: AuditLog

    constructor (audit: AuditLog)
      ensures this.audit == audit
    {
      this.audit := audit;
    }

    /** Checks a fetched segment and records the outcome in the local log. `fetched` is what the
        fetcher answers; None when none is configured. */
    method ImportPeerChain(peerAllows: bool, peerDid: string, claimId: string, fetched: Option<seq<Exported>>, now: int)
      returns (r: Import)
      modifies audit
      ensures !peerAllows ==> r == NotAllowed
      ensures peerAllows && fetched.None? ==> r == NoFetcher
      ensures peerAllows && fetched.Some? ==>
        var es := fetched.value;
        if es != [] && es[|es| - 1].thisHash.Absent? then r == NoTerminalHash
        else r.Imported? && (r.ok <==> SegmentOk(audit.crypto.hash, es)) && r.entries == |es|
             && r.terminalHash == PrevOf(es, |es|) && r.completionEvent == CompletionEvent(es)
      ensures r.Imported? ==>
        audit.rows == old(audit.rows)
          + [MakeRow(audit.crypto, old(audit.rows),
                     Entry("federation_audit_chain_imported", peerDid, ImportPayload(peerDid, claimId, r),
                           Some(claimId), None, now))]
      ensures !r.Imported? ==> audit.rows == old(audit.rows)
    {
      hide SegmentOk, MakeRow, ImportPayload;
      if !peerAllows {
        return NotAllowed;
      }
      if fetched.None? {
        return NoFetcher;
      }
      var es := fetched.value;
      var ok := VerifyChainSegment(audit.crypto.hash, es);
      if es != [] && es[|es| - 1].thisHash.Absent? {
        return NoTerminalHash;
      }
      r := Imported(ok, |es|, PrevOf(es, |es|), CompletionEvent(es));
      var _, _ := audit.Append(Entry("federation_audit_chain_imported", peerDid, ImportPayload(peerDid, claimId, r),
                                     Some(claimId), None, now));
    }
  }

  // ----- an honest peer's export tells the truth ------------------------------------------------

  lemma {:induction false} CompletionOfLog(log: seq<Row>, task: Task)
    requires LogOk(log, task)
    ensures CompletionEvent(ExportAll(log)) == if Terminal(task.state) then Some(TerminalName(task.state)) else None
  {
    TerminalEntry(log, task);
    if log != [] && IsTerminal(log[|log| - 1]) {
      assert Terminal(task.state);
      assert ExportAll(log)[|log| - 1] == Export(log[|log| - 1]);
    } else {
      assert forall i | 0 <= i < |log| :: !IsTerminal(log[i]);
      NoCompletion(log);
    }
  }

  lemma {:induction false} NoCompletion(log: seq<Row>)
    requires forall i | 0 <= i < |log| :: !IsTerminal(log[i])
    ensures CompletionEvent(ExportAll(log)) == None
  {
    if log != [] {
      var init, es := log[..|log| - 1], ExportAll(log);
      NoCompletion(init);
      assert ExportAll(init) == es[..|es| - 1];
      assert es[|es| - 1] == Export(log[|log| - 1]);
    }
  }

  /** Across coordinators: whatever calls a peer has served (its workers logging only harmless
      events), the export of a claim with increasing timestamps is accepted, and the completion
      event an importer reads from it names the terminal state of the peer's task, or is absent
      exactly when the task is not terminal. */
  lemma ImportIsTruthful(env: Env, calls: seq<Call>, c: string)
    requires Sound(env.crypto) && c in Run(env, calls).claims
    requires HarmlessRun(env, calls)
    requires Increasing(ClaimRows(Run(env, calls).rows, c))
    ensures var w := Run(env, calls);
      var es := ExportAll(Chain(w.rows, c));
      && TaskOf(w, c).Some?
      && SegmentOk(env.crypto.hash, es)
      && CompletionEvent(es)
         == var s := TaskOf(w, c).value.state; if Terminal(s) then Some(TerminalName(s)) else None
  {
    RunVerifies(env, calls, c);
    var w := Run(env, calls);
    hide Run, ChainOk, Chain, LogOk, ClaimRows, Sound;
    ExportExactly(env.crypto, Chain(w.rows, c));
    CompletionOfLog(Chain(w.rows, c), TaskOf(w, c).value);
  }

  // ----- what an importer reads ----------------------------------------------------------------

  /** The completion event read is the type of the last entry that is one, if any is. */
  lemma {:induction false} CompletionExactly(es: seq<Exported>, x: string)
    ensures CompletionEvent(es) == Some(x) <==> exists i: nat | i < |es| :: CompletesAt(es, i, x)
  {
    if es != [] {
      var init := es[..|es| - 1];
      CompletionExactly(init, x);
      hide CompletesAt;
      if IsCompletion(es[|es| - 1].eventType) {
        LastCompletion(es, x);
      } else {
        EarlierCompletion(es, init, x);
      }
    }
  }

  /** Entry number `i` is the last completion, of type `x`. */
  ghost predicate CompletesAt(es: seq<Exported>, i: nat, x: string)
    requires i < |es|
  {
    && es[i].eventType == Some(x) && x in {"task_completed", "task_voided", "task_aborted"}
    && forall j | i < j < |es| :: !IsCompletion(es[j].eventType)
  }

  lemma LastCompletion(es: seq<Exported>, x: string)
    requires es != [] && IsCompletion(es[|es| - 1].eventType)
    ensures (exists i: nat | i < |es| :: CompletesAt(es, i, x)) <==> es[|es| - 1].eventType == Some(x)
  {
    if es[|es| - 1].eventType == Some(x) {
      assert CompletesAt(es, |es| - 1, x);
    }
  }

  lemma EarlierCompletion(es: seq<Exported>, init: seq<Exported>, x: string)
    requires es != [] && !IsCompletion(es[|es| - 1].eventType) && init == es[..|es| - 1]
    ensures (exists i: nat | i < |es| :: CompletesAt(es, i, x))
       <==> exists i: nat | i < |init| :: CompletesAt(init, i, x)
  {
    forall i: nat | i < |init| ensures CompletesAt(es, i, x) <==> CompletesAt(init, i, x) {
    }
  }

  /** A missing payload counts as an empty one, and a missing id or first link as an empty one. */
  lemma AbsentIsEmpty(hash: string -> string, e: Exported, prev: Option<string>)
    ensures EntryOk(hash, e.(payload := None), prev) <==> EntryOk(hash, e.(payload := Some(map[])), prev)
    ensures EntryOk(hash, e.(claimId := None), prev) <==> EntryOk(hash, e.(claimId := Some("")), prev)
    ensures EntryOk(hash, e.(taskId := None), prev) <==> EntryOk(hash, e.(taskId := Some("")), prev)
    ensures EntryOk(hash, e.(prevHash := None), None) <==> EntryOk(hash, e.(prevHash := Some("")), None)
    ensures !EntryOk(hash, e.(payloadHash := None), prev) && !EntryOk(hash, e.(thisHash := Null), prev)
  {
    hide Canon;
    assert SegmentJson(e.(claimId := None)) == SegmentJson(e.(claimId := Some("")));
    assert SegmentJson(e.(taskId := None)) == SegmentJson(e.(taskId := Some("")));
    assert SegmentJson(e.(prevHash := None)) == SegmentJson(e.(prevHash := Some("")));
  }

  /** What an import writes to the local log. */
  lemma ImportPayloadExactly(peerDid: string, claimId: string, ok: bool, n: nat, terminalHash: Option<string>,
                             event: Option<string>)
    ensures ImportPayload(peerDid, claimId, Imported(ok, n, terminalHash, event))
      == map["ok" := JBool(ok), "entries" := JInt(n), "claim_id" := JString(claimId),
             "peer_coordinator_did" := JString(peerDid),
             "completion_event" := if event.Some? then JString(event.value) else JNull,
             "terminal_hash" := if terminalHash.Some? then JString(terminalHash.value) else JNull]
  {
  }
}
