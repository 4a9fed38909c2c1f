/**
 The worker's offline buffer: entries linked by hash while disconnected, replayed to the
 coordinator in one batch on reconnect.
*/
module WcpLite {
  import opened Basics
  import opened JsonText
  import opened Canonical
  import CanonicalEncoders

  type Hash = string -> string

  datatype Draft = Draft(entryId: string, taskId: string, claimId: Option<string>, signer: string,
                         payload: Dict, signature: string, timestamp: string)

  datatype LiteEntry = LiteEntry(draft: Draft, prevHash: Option<string>, entryHash: string)

  /** The hashed contents of an entry: everything but the hash itself and the signature. */
  function BodyJson(d: Draft, prevHash: Option<string>): JSON {
    JObject(map["entry_id" := JString(d.entryId),
                "task_id" := JString(d.taskId),
                "claim_id" := OptionJson(d.claimId),
                "timestamp" := JString(d.timestamp),
                "signer_did" := JString(d.signer),
                "payload" := JObject(d.payload),
                "previous_entry_hash" := OptionJson(prevHash)])
  }

  ghost function BodyBytes(d: Draft, prevHash: Option<string>): string {
    Canon(Python, BodyJson(d, prevHash))
  }

  ghost function MakeEntry(hash: Hash, d: Draft, prevHash: Option<string>): LiteEntry {
    LiteEntry(d, prevHash, hash(BodyBytes(d, prevHash)))
  }

  function HashBefore(es: seq<LiteEntry>, i: nat): Option<string>
    requires i <= |es|
  {
    if i == 0 then None else Some(es[i - 1].entryHash)
  }

  ghost predicate LiteOk(hash: Hash, e: LiteEntry, prev: Option<string>) {
    e.entryHash == hash(BodyBytes(e.draft, e.prevHash)) && e.prevHash == prev
  }

  /** Every entry's hash is that of its contents, and links to the entry before. */
  ghost predicate Intact(hash: Hash, es: seq<LiteEntry>) {
    forall i | 0 <= i < |es| :: LiteOk(hash, es[i], HashBefore(es, i))
  }

  // ----- what each operation does -----------------------------------------------------------

  /** The buffer, the batches awaiting an answer, and the history: all entries appended so far
      and all entries the coordinator has accepted. */
  datatype Buffer = Buffer(entries: seq<LiteEntry>, waiting: seq<seq<LiteEntry>>,
                           appended: seq<LiteEntry>, delivered: seq<LiteEntry>)

  datatype Op = Append(draft: Draft) | Begin | Finish(k: nat, accepted: bool)

  /** One operation, as the methods of the buffer take it. */
  ghost function Apply(hash: Hash, capacity: int, b: Buffer, op: Op): Buffer {
    match op
    case Append(d) =>
      if |b.entries| >= capacity then b
      else
        var e := MakeEntry(hash, d, HashBefore(b.entries, |b.entries|));
        b.(entries := b.entries + [e], appended := b.appended + [e])
    case Begin =>
      if b.entries == [] || !Intact(hash, b.entries) then b else b.(waiting := b.waiting + [b.entries])
    case Finish(k, accepted) =>
      if k >= |b.waiting| then b
      else
        var b' := b.(waiting := b.waiting[..k] + b.waiting[k + 1..]);
        if accepted then b'.(entries := [], delivered := b.delivered + b.waiting[k]) else b'
  }

  // ----- the buffer as an object -------------------------------------------------------------

  datatype Overflow = Overflow(capacity: int, attempted: nat)

  /** What a replay does before it awaits the coordinator. */
  datatype Replay = NothingToSend | Corrupted | Submit(batch: seq<LiteEntry>)

  class BufferedAuditChain {
    const hash: Hash
    const capacity: int
    var entries: seq<LiteEntry>
    var lastHash: Option<string>
    ghost var waiting: seq<seq<LiteEntry>>
    ghost var appended: seq<LiteEntry>
    ghost var delivered: seq<LiteEntry>
    /** The operations so far. */
    ghost var ops: seq<Op>

    ghost function History(): Buffer
      reads this
    {
      Buffer(entries, waiting, appended, delivered)
    }

    /** Nothing is asked of the entries themselves: a caller may have changed a payload that the
        buffer shares with it. */
    ghost predicate Valid()
      reads this
    {
      lastHash == HashBefore(entries, |entries|)
    }

    /** Only the operations have changed the buffer, so that what holds of runs holds of it. */
    ghost predicate Undisturbed()
      reads this
    {
      History() == Run(hash, capacity, ops)
    }

    constructor (hash: Hash, capacity: int)
      ensures Valid() && Undisturbed() && ops == [] && History() == Buffer([], [], [], [])
      ensures this.hash == hash && this.capacity == capacity
    {
      this.hash := hash;
      this.capacity := capacity;
      entries, lastHash := [], None;
      waiting, appended, delivered, ops := [], [], [], [];
    }

    method Append(d: Draft) returns (r: Result<LiteEntry, Overflow>)
      requires Valid()
      modifies this
      ensures Valid() && ops == old(ops) + [Op.Append(d)] && (old(Undisturbed()) ==> Undisturbed())
      ensures History() == Apply(hash, capacity, old(History()), Op.Append(d))
      ensures r.Ok? <==> |old(entries)| < capacity
      ensures r.Ok? ==> entries == old(entries) + [r.value]
      ensures r.Ok? ==> r.value.draft == d && r.value.prevHash == old(lastHash)
      ensures r.Ok? ==> r.value.entryHash == hash(BodyBytes(d, old(lastHash)))
      ensures r.Err? ==> r.error == Overflow(capacity, |entries| + 1)
    {
      RunAppend(hash, capacity, ops, Op.Append(d));
      hide Run;
      ops := ops + [Op.Append(d)];
      if |entries| >= capacity {
        return Err(Overflow(capacity, |entries| + 1));
      }
      var canonical := CanonicalEncoders.CanonicalJson(Python, BodyJson(d, lastHash));
      var e := LiteEntry(d, lastHash, hash(canonical));
      entries := entries + [e];
      lastHash := Some(e.entryHash);
      appended := appended + [e];
      r := Ok(e);
    }

    /** The checks of one entry. */
    method CheckEntry(e: LiteEntry, prev: Option<string>) returns (ok: bool)
      ensures ok <==> LiteOk(hash, e, prev)
    {
      var canonical := CanonicalEncoders.CanonicalJson(Python, BodyJson(e.draft, e.prevHash));
      if e.entryHash != hash(canonical) {
        return false;
      }
      ok := e.prevHash == prev;
    }

    method VerifyChainIntegrity() returns (ok: bool)
      ensures ok <==> Intact(hash, entries)
    {
      hide LiteOk;
      var prev: Option<string> := None;
      for i := 0 to |entries|
        invariant prev == HashBefore(entries, i)
        invariant forall j | 0 <= j < i :: LiteOk(hash, entries[j], HashBefore(entries, j))
      {
        ok := CheckEntry(entries[i], prev);
        if !ok {
          return;
        }
        prev := Some(entries[i].entryHash);
      }
      ok := true;
    }

    method Clear()
      modifies this`entries, this`lastHash
      ensures entries == [] && lastHash == None
    {
      entries, lastHash := [], None;
    }

    /** The replay up to the point where it awaits the coordinator's answer. */
    method BeginReplay() returns (r: Replay)
      requires Valid()
      modifies this`waiting, this`ops
      ensures Valid() && ops == old(ops) + [Begin] && (old(Undisturbed()) ==> Undisturbed())
      ensures History() == Apply(hash, capacity, old(History()), Begin)
      ensures r == if entries == [] then NothingToSend else if Intact(hash, entries) then Submit(entries) else Corrupted
    {
      RunAppend(hash, capacity, ops, Begin);
      hide Run;
      ops := ops + [Begin];
      hide Intact;
      if entries == [] {
        return NothingToSend;
      }
      var intact := VerifyChainIntegrity();
      if !intact {
        return Corrupted;
      }
      waiting := waiting + [entries];
      r := Submit(entries);
    }

    /** The rest of the `k`-th waiting replay, once the coordinator has answered. */
    method FinishReplay(ghost k: nat, accepted: bool) returns (r: bool)
      requires Valid() && k < |waiting|
      modifies this
      ensures Valid() && ops == old(ops) + [Finish(k, accepted)] && (old(Undisturbed()) ==> Undisturbed())
      ensures History() == Apply(hash, capacity, old(History()), Finish(k, accepted))
      ensures r == accepted
    {
      RunAppend(hash, capacity, ops, Finish(k, accepted));
      hide Run;
      ops := ops + [Finish(k, accepted)];
      hide Intact;
      ghost var batch := waiting[k];
      waiting := waiting[..k] + waiting[k + 1..];
      if accepted {
        Clear();
        delivered := delivered + batch;
      }
      r := accepted;
    }
  }

  lemma MadeOk(hash: Hash, d: Draft, prev: Option<string>)
    ensures LiteOk(hash, MakeEntry(hash, d, prev), prev)
  {
  }

  lemma AppendIntact(hash: Hash, es: seq<LiteEntry>, d: Draft)
    requires Intact(hash, es)
    ensures Intact(hash, es + [MakeEntry(hash, d, HashBefore(es, |es|))])
  {
    hide LiteOk, MakeEntry;
    var e := MakeEntry(hash, d, HashBefore(es, |es|));
    MadeOk(hash, d, HashBefore(es, |es|));
    var all := es + [e];
    forall i | 0 <= i < |all| ensures LiteOk(hash, all[i], HashBefore(all, i)) {
      assert i < |es| ==> LiteOk(hash, es[i], HashBefore(es, i)) && HashBefore(all, i) == HashBefore(es, i);
    }
  }

  // ----- tampering ---------------------------------------------------------------------------

  /** Two entries with the same hashed contents; only the signature may differ. */
  ghost predicate SameBody(a: LiteEntry, b: LiteEntry) {
    a.prevHash == b.prevHash && a.draft == b.draft.(signature := a.draft.signature)
  }

  lemma BodyFields(d: Draft, prevHash: Option<string>)
    ensures var v := BodyJson(d, prevHash);
      && v.JObject?
      && "entry_id" in v.members && v.members["entry_id"] == JString(d.entryId)
      && "task_id" in v.members && v.members["task_id"] == JString(d.taskId)
      && "claim_id" in v.members && v.members["claim_id"] == OptionJson(d.claimId)
      && "timestamp" in v.members && v.members["timestamp"] == JString(d.timestamp)
      && "signer_did" in v.members && v.members["signer_did"] == JString(d.signer)
      && "payload" in v.members && v.members["payload"] == JObject(d.payload)
      && "previous_entry_hash" in v.members && v.members["previous_entry_hash"] == OptionJson(prevHash)
  {
  }

  lemma BodyBinds(a: LiteEntry, b: LiteEntry)
    ensures BodyBytes(a.draft, a.prevHash) == BodyBytes(b.draft, b.prevHash) <==> SameBody(a, b)
  {
    hide Canon, BodyJson;
    CanonInjective(Python, BodyJson(a.draft, a.prevHash), BodyJson(b.draft, b.prevHash));
    BodyFields(a.draft, a.prevHash);
    BodyFields(b.draft, b.prevHash);
    if SameBody(a, b) {
      SignatureUnhashed(a.draft, b.draft.signature, a.prevHash);
    }
  }

  lemma SignatureUnhashed(d: Draft, signature: string, prevHash: Option<string>)
    ensures BodyJson(d.(signature := signature), prevHash) == BodyJson(d, prevHash)
  {
  }

  /** Replacing an accepted entry by one with the same hash, in its place. */
  lemma Replaced(hash: Hash, a: LiteEntry, b: LiteEntry, prev: Option<string>) returns (x: string, y: string)
    requires LiteOk(hash, a, prev) && a.entryHash == b.entryHash
    ensures SameBody(a, b) ==> LiteOk(hash, b, prev)
    ensures x == BodyBytes(a.draft, a.prevHash) && y == BodyBytes(b.draft, b.prevHash)
    ensures LiteOk(hash, b, prev) ==> SameBody(a, b) || Collision(hash, x, y)
  {
    x, y := BodyBytes(a.draft, a.prevHash), BodyBytes(b.draft, b.prevHash);
    BodyBinds(a, b);
    hide BodyBytes;
  }

  /** Replacing an entry while leaving its stored hash passes the check exactly when no hashed
      field changed, unless what is hashed of the two entries collides. Changing the signature
      alone is never seen. */
  lemma TamperExactly(hash: Hash, es: seq<LiteEntry>, i: nat, e: LiteEntry) returns (x: string, y: string)
    requires Intact(hash, es) && i < |es| && e.entryHash == es[i].entryHash
    ensures x == BodyBytes(es[i].draft, es[i].prevHash) && y == BodyBytes(e.draft, e.prevHash)
    ensures SameBody(es[i], e) ==> Intact(hash, es[i := e])
    ensures Intact(hash, es[i := e]) ==> SameBody(es[i], e) || Collision(hash, x, y)
  {
    assert LiteOk(hash, es[i], HashBefore(es, i));
    x, y := Replaced(hash, es[i], e, HashBefore(es, i));
    hide LiteOk, SameBody, Intact, Collision;
    OthersStay(hash, es, i, e);
  }

  lemma OthersStay(hash: Hash, es: seq<LiteEntry>, i: nat, e: LiteEntry)
    requires Intact(hash, es) && i < |es| && e.entryHash == es[i].entryHash
    ensures Intact(hash, es[i := e]) <==> LiteOk(hash, e, HashBefore(es, i))
  {
    hide LiteOk;
    var es' := es[i := e];
    forall j | 0 <= j < |es| ensures HashBefore(es', j) == HashBefore(es, j) { }
    forall j | 0 <= j < |es| && j != i ensures LiteOk(hash, es'[j], HashBefore(es', j)) {
      assert es'[j] == es[j];
    }
    assert es'[i] == e;
  }

  // ----- every run -----------------------------------------------------------------------------

  ghost function Run(hash: Hash, capacity: int, ops: seq<Op>): Buffer {
    if ops == [] then Buffer([], [], [], [])
    else Apply(hash, capacity, Run(hash, capacity, ops[..|ops| - 1]), ops[|ops| - 1])
  }

  /** What was accepted, then what is buffered, is all that was appended, in order. */
  ghost predicate Conserved(b: Buffer) {
    b.delivered + b.entries == b.appended
  }

  /** The buffer and every batch sent pass the integrity check, and the buffer fits. */
  ghost predicate Sane(hash: Hash, capacity: int, b: Buffer) {
    && Intact(hash, b.entries) && (b.entries == [] || |b.entries| <= capacity)
    && forall k | 0 <= k < |b.waiting| :: Intact(hash, b.waiting[k])
  }

  lemma {:induction false} RunSane(hash: Hash, capacity: int, ops: seq<Op>)
    ensures Sane(hash, capacity, Run(hash, capacity, ops))
  {
    EmptyIntact(hash);
    hide Intact, MakeEntry;
    if ops != [] {
      RunSane(hash, capacity, ops[..|ops| - 1]);
      ApplySane(hash, capacity, Run(hash, capacity, ops[..|ops| - 1]), ops[|ops| - 1]);
    }
  }

  lemma ApplySane(hash: Hash, capacity: int, b: Buffer, op: Op)
    requires Sane(hash, capacity, b)
    ensures Sane(hash, capacity, Apply(hash, capacity, b, op))
  {
    if op.Append? {
      AppendIntact(hash, b.entries, op.draft);
    }
    EmptyIntact(hash);
    hide Intact, MakeEntry;
  }

  lemma EmptyIntact(hash: Hash)
    ensures Intact(hash, [])
  {
  }

  /** If the operation is the acceptance of a replay, the buffer still holds just its batch. */
  ghost predicate Fits(b: Buffer, op: Op) {
    op.Finish? && op.accepted && op.k < |b.waiting| ==> b.waiting[op.k] == b.entries
  }

  /** Exactly when an operation conserves entries: always, except that an accepted replay does
      so only if the buffer still holds just the batch it submitted. */
  lemma ConservesExactly(hash: Hash, capacity: int, b: Buffer, op: Op)
    requires Conserved(b)
    ensures Conserved(Apply(hash, capacity, b, op)) <==> Fits(b, op)
  {
    hide MakeEntry, Intact;
    var b' := Apply(hash, capacity, b, op);
    if op.Append? && |b.entries| < capacity {
      var e := MakeEntry(hash, op.draft, HashBefore(b.entries, |b.entries|));
      assert b.delivered + (b.entries + [e]) == (b.delivered + b.entries) + [e];
    }
    if op.Finish? && op.accepted && op.k < |b.waiting| {
      assert b'.delivered + b'.entries == b.delivered + b.waiting[op.k];
      if b.delivered + b.waiting[op.k] == b.delivered + b.entries {
        assert b.waiting[op.k] == (b.delivered + b.waiting[op.k])[|b.delivered|..];
        assert b.entries == (b.delivered + b.entries)[|b.delivered|..];
      }
    }
  }

  /** No append and no second replay while one awaits its answer. */
  ghost predicate OneAtATime(hash: Hash, capacity: int, ops: seq<Op>) {
    ops == [] ||
    (OneAtATime(hash, capacity, ops[..|ops| - 1])
     && (Run(hash, capacity, ops[..|ops| - 1]).waiting == [] || ops[|ops| - 1].Finish?))
  }

  lemma RunNext(hash: Hash, capacity: int, ops: seq<Op>, n: nat)
    requires n < |ops|
    ensures Run(hash, capacity, ops[..n + 1]) == Apply(hash, capacity, Run(hash, capacity, ops[..n]), ops[n])
  {
    assert ops[..n + 1][..n] == ops[..n];
  }

  /** Exactly which runs conserve entries throughout: those in which every accepted replay finds
      its batch to be the whole buffer. */
  lemma {:induction false} RunConservesExactly(hash: Hash, capacity: int, ops: seq<Op>)
    ensures (forall n: nat | n <= |ops| :: Conserved(Run(hash, capacity, ops[..n])))
       <==> (forall n: nat | n < |ops| :: Fits(Run(hash, capacity, ops[..n]), ops[n]))
  {
    hide Run, Apply, Conserved, Fits;
    if forall n: nat | n < |ops| :: Fits(Run(hash, capacity, ops[..n]), ops[n]) {
      forall n: nat | n <= |ops| ensures Conserved(Run(hash, capacity, ops[..n])) {
        PrefixConserves(hash, capacity, ops, n);
      }
    } else {
      var n: nat :| n < |ops| && !Fits(Run(hash, capacity, ops[..n]), ops[n]);
      RunNext(hash, capacity, ops, n);
      if Conserved(Run(hash, capacity, ops[..n])) {
        ConservesExactly(hash, capacity, Run(hash, capacity, ops[..n]), ops[n]);
        assert !Conserved(Run(hash, capacity, ops[..n + 1]));
      }
    }
  }

  lemma {:induction false} PrefixConserves(hash: Hash, capacity: int, ops: seq<Op>, n: nat)
    requires n <= |ops| && forall i: nat | i < n :: Fits(Run(hash, capacity, ops[..i]), ops[i])
    ensures Conserved(Run(hash, capacity, ops[..n]))
  {
    if n == 0 {
      assert Run(hash, capacity, []) == Buffer([], [], [], []);
    } else {
      hide Run, Apply, Conserved, Fits;
      PrefixConserves(hash, capacity, ops, n - 1);
      RunNext(hash, capacity, ops, n - 1);
      ConservesExactly(hash, capacity, Run(hash, capacity, ops[..n - 1]), ops[n - 1]);
    }
  }

  /** In any run with neither an append nor a second replay while a replay awaits its answer,
      nothing is lost, repeated or reordered. */
  lemma {:induction false} RunConserves(hash: Hash, capacity: int, ops: seq<Op>)
    requires OneAtATime(hash, capacity, ops)
    ensures var b := Run(hash, capacity, ops);
      Conserved(b) && (b.waiting == [] || b.waiting == [b.entries])
  {
    if ops != [] {
      var b, op := Run(hash, capacity, ops[..|ops| - 1]), ops[|ops| - 1];
      RunConserves(hash, capacity, ops[..|ops| - 1]);
      ConservesExactly(hash, capacity, b, op);
      hide MakeEntry, Intact;
      if op.Finish? && op.k < |b.waiting| {
        assert op.k == 0 && b.waiting[..0] + b.waiting[1..] == [];
      }
      assert b.waiting == [] ==> b.waiting + [b.entries] == [b.entries];
    }
  }

  /** An entry appended while a replay is pending is lost when the replay is accepted: the
      buffer forgets it although no batch held it. */
  lemma LateAppendIsLost(hash: Hash, capacity: int, ops: seq<Op>, d: Draft)
    requires OneAtATime(hash, capacity, ops) && Run(hash, capacity, ops).waiting != []
    requires |Run(hash, capacity, ops).entries| < capacity
    ensures !Conserved(Run(hash, capacity, ops + [Append(d)] + [Finish(0, true)]))
  {
    RunConserves(hash, capacity, ops);
    var b := Run(hash, capacity, ops);
    var late := ops + [Append(d)];
    assert late[..|ops|] == ops && (late + [Finish(0, true)])[..|late|] == late;
    var b1 := Apply(hash, capacity, b, Append(d));
    assert Run(hash, capacity, late) == b1;
    assert Run(hash, capacity, late + [Finish(0, true)]) == Apply(hash, capacity, b1, Finish(0, true));
    ConservesExactly(hash, capacity, b, Append(d));
    ConservesExactly(hash, capacity, b1, Finish(0, true));
    assert |b1.entries| == |b1.waiting[0]| + 1;
  }

  lemma RunAppend(hash: Hash, capacity: int, ops: seq<Op>, op: Op)
    ensures Run(hash, capacity, ops + [op]) == Apply(hash, capacity, Run(hash, capacity, ops), op)
  {
    assert (ops + [op])[..|ops|] == ops;
  }

  /** The batch `es` goes out twice and is accepted twice. */
  lemma SentTwice(hash: Hash, capacity: int, b: Buffer)
    requires Intact(hash, b.entries) && b.entries != [] && b.waiting == []
    ensures var b2 := Apply(hash, capacity, Apply(hash, capacity, b, Begin), Begin);
      var b3 := Apply(hash, capacity, b2, Finish(0, true));
      Apply(hash, capacity, b3, Finish(0, true))
      == b.(entries := [], delivered := b.delivered + b.entries + b.entries)
  {
    hide Intact, MakeEntry;
    var es := b.entries;
    assert [] + [es] == [es] && [es] + [es] == [es, es];
    assert [es, es][..0] + [es, es][1..] == [es] && [es][..0] + [es][1..] == [];
  }

  /** Two replays awaiting their answers at once deliver the same batch twice. */
  lemma SecondReplayRepeats(hash: Hash, capacity: int, ops: seq<Op>)
    requires OneAtATime(hash, capacity, ops)
    requires Run(hash, capacity, ops).waiting == [] && Run(hash, capacity, ops).entries != []
    ensures var b := Run(hash, capacity, ops);
      var b' := Run(hash, capacity, ops + [Begin] + [Begin] + [Finish(0, true)] + [Finish(0, true)]);
      b'.appended == b.appended && b'.delivered == b.appended + b.entries && !Conserved(b')
  {
    RunConserves(hash, capacity, ops);
    RunSane(hash, capacity, ops);
    hide Run, Intact, MakeEntry, Apply;
    var b := Run(hash, capacity, ops);
    RunAppend(hash, capacity, ops, Begin);
    RunAppend(hash, capacity, ops + [Begin], Begin);
    RunAppend(hash, capacity, ops + [Begin] + [Begin], Finish(0, true));
    RunAppend(hash, capacity, ops + [Begin] + [Begin] + [Finish(0, true)], Finish(0, true));
    SentTwice(hash, capacity, b);
    assert |b.delivered + b.entries + b.entries + []| > |b.appended|;
  }

  // ----- what was given -----------------------------------------------------------------------

  function DraftsOf(es: seq<LiteEntry>): (ds: seq<Draft>)
    ensures |ds| == |es| && forall i | 0 <= i < |es| :: ds[i] == es[i].draft
  {
    seq(|es|, i requires 0 <= i < |es| => es[i].draft)
  }

  /** The drafts given to the appends that found room, in order. */
  ghost function Given(hash: Hash, capacity: int, ops: seq<Op>): seq<Draft> {
    if ops == [] then []
    else
      var init, op := ops[..|ops| - 1], ops[|ops| - 1];
      Given(hash, capacity, init)
      + (if op.Append? && |Run(hash, capacity, init).entries| < capacity then [op.draft] else [])
  }

  lemma ApplyGiven(hash: Hash, capacity: int, b: Buffer, op: Op)
    ensures DraftsOf(Apply(hash, capacity, b, op).appended)
         == DraftsOf(b.appended) + (if op.Append? && |b.entries| < capacity then [op.draft] else [])
  {
    hide Intact, BodyBytes;
  }

  /** Over every run: the entries appended hold, in order, exactly the drafts that the appends which
      found room were given. */
  lemma {:induction false} AppendedAreGiven(hash: Hash, capacity: int, ops: seq<Op>)
    ensures DraftsOf(Run(hash, capacity, ops).appended) == Given(hash, capacity, ops)
  {
    hide Apply;
    if ops != [] {
      var init, op := ops[..|ops| - 1], ops[|ops| - 1];
      AppendedAreGiven(hash, capacity, init);
      ApplyGiven(hash, capacity, Run(hash, capacity, init), op);
    }
  }

  /** With one replay at a time and no append meanwhile, what was accepted and then what is buffered
      is, draft by draft, what the worker gave. */
  lemma GivenConserved(hash: Hash, capacity: int, ops: seq<Op>)
    requires OneAtATime(hash, capacity, ops)
    ensures var b := Run(hash, capacity, ops);
      DraftsOf(b.delivered) + DraftsOf(b.entries) == Given(hash, capacity, ops)
  {
    hide Run, Given;
    RunConserves(hash, capacity, ops);
    AppendedAreGiven(hash, capacity, ops);
    var b := Run(hash, capacity, ops);
    assert DraftsOf(b.delivered + b.entries) == DraftsOf(b.delivered) + DraftsOf(b.entries);
  }

  /** Every entry hashes its contents and names the hash of the one before, the first none. */
  ghost predicate Chained(hash: Hash, es: seq<LiteEntry>) {
    && (forall i | 0 <= i < |es| :: es[i].entryHash == hash(BodyBytes(es[i].draft, es[i].prevHash)))
    && (es != [] ==> es[0].prevHash == None)
    && (forall i | 1 <= i < |es| :: es[i].prevHash == Some(es[i - 1].entryHash))
  }

  lemma IntactExactly(hash: Hash, es: seq<LiteEntry>)
    ensures Intact(hash, es) <==> Chained(hash, es)
  {
    hide BodyBytes;
    if Intact(hash, es) {
      assert forall i | 0 <= i < |es| :: LiteOk(hash, es[i], HashBefore(es, i));
    }
    if Chained(hash, es) {
      forall i | 0 <= i < |es| ensures LiteOk(hash, es[i], HashBefore(es, i)) {
      }
    }
  }

  /** A replay submits a batch exactly if there is something to send and the chain is unbroken; the
      batch is then the whole buffer. */
  lemma SubmitsExactly(hash: Hash, capacity: int, b: Buffer)
    ensures var b' := Apply(hash, capacity, b, Begin);
      && b'.entries == b.entries && b'.appended == b.appended && b'.delivered == b.delivered
      && b'.waiting == if b.entries != [] && Chained(hash, b.entries) then b.waiting + [b.entries] else b.waiting
  {
    IntactExactly(hash, b.entries);
    hide Intact, Chained;
  }
}
