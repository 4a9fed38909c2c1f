/**
 Trust anchors and forwarded tasks: which forwards may start, and what the log shows of
 forwards and revocations, when forwards stay in flight while the store changes.
*/
module Revocation {
  import opened Basics

  datatype Anchor = Anchor(did: string, url: string, scope: set<string>, expiresAt: int, signatureOk: bool)

  /** The peer a call goes to, and where. */
  datatype Target = Target(did: string, url: string)

  function TargetOf(a: Anchor): Target { Target(a.did, a.url) }

  datatype Logged = Forwarded(to: Target, accepted: bool) | Revoked(did: string)

  /** The store (and whether it was given an audit log), whether a forwarder is configured, the
      forwarder calls awaiting an answer, all calls started, those cancelled while they awaited
      one, and the log. */
  datatype State = State(store: map<string, Anchor>, audited: bool, forwarder: bool, inFlight: seq<Target>,
                         started: seq<Target>, cancelled: seq<Target>, log: seq<Logged>)

  datatype Event =
    | Add(anchor: Anchor, now: int)
    | Remove(did: string)
    | BeginForward(peer: Anchor)
    | EndForward(k: nat, accepted: bool)
    | CancelForward(k: nat)
    | WithForwarder

  predicate Allows(a: Anchor, trustClass: string, now: int) {
    trustClass in a.scope && now < a.expiresAt
  }

  function Step(s: State, e: Event): State {
    match e
    case Add(a, now) => if !a.signatureOk || now >= a.expiresAt then s else s.(store := s.store[a.did := a])
    case Remove(did) =>
      if did !in s.store then s
      else s.(store := s.store - {did}, log := if s.audited then s.log + [Revoked(did)] else s.log)
    case BeginForward(peer) =>
      if !s.forwarder || peer.did !in s.store then s
      else s.(inFlight := s.inFlight + [TargetOf(peer)], started := s.started + [TargetOf(peer)])
    case EndForward(k, accepted) =>
      if k >= |s.inFlight| then s
      else s.(inFlight := s.inFlight[..k] + s.inFlight[k + 1..], log := s.log + [Forwarded(s.inFlight[k], accepted)])
    case CancelForward(k) =>
      if k >= |s.inFlight| then s
      else s.(inFlight := s.inFlight[..k] + s.inFlight[k + 1..], cancelled := s.cancelled + [s.inFlight[k]])
    case WithForwarder => s.(forwarder := true)
  }

  function Run(audited: bool, events: seq<Event>): State {
    if events == [] then State(map[], audited, false, [], [], [], [])
    else Step(Run(audited, events[..|events| - 1]), events[|events| - 1])
  }

  // ----- the objects ---------------------------------------------------------------------------

  /** What a forward does before it awaits the peer: the source raises in the first two cases. */
  datatype Begun = NoForwarder | AnchorRevoked | Awaiting

  /** The trust anchor store and the federation router over it. */
  class TrustedPeers {
    var byDid: map<string, Anchor>
    const audited: bool
    var forwarder: bool
    var log: seq<Logged>
    ghost var inFlight: seq<Target>
    ghost var started: seq<Target>
    ghost var cancelled: seq<Target>
    /** Everything that has happened to this store and router. */
    ghost var events: seq<Event>

    ghost function Fields(): State
      reads this
    {
      State(byDid, audited, forwarder, inFlight, started, cancelled, log)
    }

    /** Anchors are stored under their own identifier. */
    ghost predicate Valid()
      reads this
    {
      Fields() == Run(audited, events) && forall did | did in byDid :: byDid[did].did == did
    }

    constructor (audited: bool)
      ensures Valid() && events == [] && this.audited == audited
    {
      this.audited := audited;
      byDid, forwarder, log, inFlight, started, cancelled, events := map[], false, [], [], [], [], [];
    }

    method SetForwarder()
      requires Valid()
      modifies this
      ensures Valid() && events == old(events) + [WithForwarder]
      ensures Fields() == Step(old(Fields()), WithForwarder)
    {
      RunAppend(audited, events, WithForwarder);
      hide Run;
      events := events + [WithForwarder];
      forwarder := true;
    }

    /** False where the source raises. */
    method AddAnchor(a: Anchor, now: int) returns (ok: bool)
      requires Valid()
      modifies this
      ensures Valid() && events == old(events) + [Add(a, now)]
      ensures ok <==> a.signatureOk && now < a.expiresAt
      ensures Fields() == Step(old(Fields()), Add(a, now))
    {
      RunAppend(audited, events, Add(a, now));
      hide Run;
      events := events + [Add(a, now)];
      if !a.signatureOk {
        return false;
      }
      if now >= a.expiresAt {
        return false;
      }
      byDid := byDid[a.did := a];
      ok := true;
    }

    method RemoveAnchor(did: string) returns (removed: Option<Anchor>)
      requires Valid()
      modifies this
      ensures Valid() && events == old(events) + [Remove(did)]
      ensures removed == if did in old(byDid) then Some(old(byDid)[did]) else None
      ensures Fields() == Step(old(Fields()), Remove(did))
    {
      RunAppend(audited, events, Remove(did));
      hide Run;
      events := events + [Remove(did)];
      if did !in byDid {
        return None;
      }
      removed := Some(byDid[did]);
      byDid := byDid - {did};
      if audited {
        log := log + [Revoked(did)];
      }
    }

    /** A forward up to the point where it awaits the peer. */
    method BeginForwardTask(peer: Anchor) returns (begun: Begun)
      requires Valid()
      modifies this
      ensures Valid() && events == old(events) + [BeginForward(peer)]
      ensures begun == if !forwarder then NoForwarder else if peer.did !in byDid then AnchorRevoked else Awaiting
      ensures Fields() == Step(old(Fields()), BeginForward(peer))
    {
      RunAppend(audited, events, BeginForward(peer));
      hide Run;
      events := events + [BeginForward(peer)];
      if !forwarder {
        return NoForwarder;
      }
      if peer.did !in byDid {
        return AnchorRevoked;
      }
      inFlight := inFlight + [TargetOf(peer)];
      started := started + [TargetOf(peer)];
      begun := Awaiting;
    }

    /** The rest of the `k`-th forward in flight: the peer's answer, or its refusal, is logged. */
    method EndForwardTask(ghost k: nat, peer: Anchor, accepted: bool)
      requires Valid() && k < |inFlight| && inFlight[k] == TargetOf(peer)
      modifies this
      ensures Valid() && events == old(events) + [EndForward(k, accepted)]
      ensures Fields() == Step(old(Fields()), EndForward(k, accepted))
    {
      RunAppend(audited, events, EndForward(k, accepted));
      hide Run;
      events := events + [EndForward(k, accepted)];
      log := log + [Forwarded(TargetOf(peer), accepted)];
      inFlight := inFlight[..k] + inFlight[k + 1..];
    }

    /** The `k`-th forward in flight is cancelled where it awaits the peer: nothing is logged. */
    ghost method CancelForwardTask(k: nat)
      requires Valid() && k < |inFlight|
      modifies this
      ensures Valid() && events == old(events) + [CancelForward(k)]
      ensures Fields() == Step(old(Fields()), CancelForward(k))
    {
      RunAppend(audited, events, CancelForward(k));
      hide Run;
      events := events + [CancelForward(k)];
      cancelled := cancelled + [inFlight[k]];
      inFlight := inFlight[..k] + inFlight[k + 1..];
    }

    /** The anchors that allow a class, in whatever order the store lists them. */
    method AnchorsForClass(trustClass: string, now: int) returns (listed: seq<Anchor>)
      requires Valid()
      ensures forall a :: a in listed <==> a in byDid.Values && Allows(a, trustClass, now)
    {
      listed := [];
      var unread := byDid.Keys;
      while unread != {}
        invariant unread <= byDid.Keys
        invariant forall a :: a in listed <==> a in byDid.Values && a.did !in unread && Allows(a, trustClass, now)
        decreases unread
      {
        var did :| did in unread;
        unread := unread - {did};
        if Allows(byDid[did], trustClass, now) {
          listed := listed + [byDid[did]];
        }
      }
    }

    /** The first peer, in the order the store lists them, that allows capability discovery and
        accepts the descriptor type. A forward to it can start at once. */
    method PickPeer(descriptorType: string, accepted: Option<map<string, set<string>>>, now: int)
      returns (peer: Option<Anchor>, ghost listed: seq<Anchor>)
      requires Valid()
      ensures forall a :: a in listed <==> a in byDid.Values && Allows(a, "capability_discovery", now)
      ensures peer.Some? ==> exists i | 0 <= i < |listed| ::
        peer.value == listed[i] && forall j | 0 <= j < i :: !Admits(listed[j], descriptorType, accepted, now)
      ensures peer.Some? ==>
        && "capability_discovery" in peer.value.scope && now < peer.value.expiresAt
        && (accepted.Some? && descriptorType != "" ==>
            peer.value.did in accepted.value && descriptorType in accepted.value[peer.value.did])
      ensures peer.Some? ==> peer.value.did in byDid && byDid[peer.value.did] == peer.value
      ensures peer.None? ==> forall did | did in byDid ::
        || "capability_discovery" !in byDid[did].scope || now >= byDid[did].expiresAt
        || (accepted.Some? && descriptorType != ""
            && (did !in accepted.value || descriptorType !in accepted.value[did]))
    {
      var anchors := AnchorsForClass("capability_discovery", now);
      listed := anchors;
      for i := 0 to |anchors|
        invariant forall j | 0 <= j < i :: !Admits(anchors[j], descriptorType, accepted, now)
      {
        var a := anchors[i];
        assert a in listed;
        if accepted.Some? {
          var types := if a.did in accepted.value then accepted.value[a.did] else {};
          if descriptorType != "" && descriptorType !in types {
            continue;
          }
        }
        return Some(a), listed;
      }
      forall did | did in byDid && Allows(byDid[did], "capability_discovery", now)
        ensures !Admits(byDid[did], descriptorType, accepted, now)
      {
        assert byDid[did] in listed;
      }
      peer := None;
    }
  }

  predicate Admits(a: Anchor, descriptorType: string, accepted: Option<map<string, set<string>>>, now: int) {
    && Allows(a, "capability_discovery", now)
    && (accepted.Some? && descriptorType != "" ==>
        a.did in accepted.value && descriptorType in accepted.value[a.did])
  }

  // ----- every run --------------------------------------------------------------------------------

  function Forwards(log: seq<Logged>): multiset<Target> {
    if log == [] then multiset{}
    else Forwards(log[..|log| - 1]) + (match log[|log| - 1] case Forwarded(t, _) => multiset{t} case _ => multiset{})
  }

  function Revocations(log: seq<Logged>, did: string): nat {
    if log == [] then 0
    else Revocations(log[..|log| - 1], did) + (if log[|log| - 1] == Revoked(did) then 1 else 0)
  }

  /** How many removals of `did` in the run found an anchor. */
  function Removals(audited: bool, events: seq<Event>, did: string): nat {
    if events == [] then 0
    else
      var init, e := events[..|events| - 1], events[|events| - 1];
      Removals(audited, init, did) + (if e == Remove(did) && did in Run(audited, init).store then 1 else 0)
  }

  lemma TakeOut(a: seq<Target>, k: nat)
    requires k < |a|
    ensures multiset(a) == multiset(a[..k] + a[k + 1..]) + multiset{a[k]}
  {
    assert a == a[..k] + [a[k]] + a[k + 1..];
  }

  lemma LogNext(log: seq<Logged>, x: Logged, did: string)
    ensures Forwards(log + [x]) == Forwards(log) + (match x case Forwarded(t, _) => multiset{t} case _ => multiset{})
    ensures Revocations(log + [x], did) == Revocations(log, did) + (if x == Revoked(did) then 1 else 0)
  {
    assert (log + [x])[..|log|] == log;
  }

  /** Every forwarder call started is in flight, was cancelled, or is logged as forwarded: one of
      them, once. */
  ghost predicate Accounted(s: State) {
    multiset(s.started) == multiset(s.inFlight) + multiset(s.cancelled) + Forwards(s.log)
  }

  lemma StepAccounted(s: State, e: Event)
    requires Accounted(s)
    ensures Accounted(Step(s, e))
  {
    hide Forwards;
    match e
    case Remove(d) => LogNext(s.log, Revoked(d), d);
    case EndForward(k, accepted) => EndAccounted(s, k, accepted);
    case CancelForward(k) => CancelAccounted(s, k);
    case _ =>
  }

  lemma EndAccounted(s: State, k: nat, accepted: bool)
    requires Accounted(s)
    ensures Accounted(Step(s, EndForward(k, accepted)))
  {
    hide Forwards;
    if k < |s.inFlight| {
      TakeOut(s.inFlight, k);
      LogNext(s.log, Forwarded(s.inFlight[k], accepted), "");
    }
  }

  lemma CancelAccounted(s: State, k: nat)
    requires Accounted(s)
    ensures Accounted(Step(s, CancelForward(k)))
  {
    hide Forwards;
    if k < |s.inFlight| {
      TakeOut(s.inFlight, k);
      PutIn(s.cancelled, s.inFlight[k]);
    }
  }

  lemma PutIn(a: seq<Target>, t: Target)
    ensures multiset(a + [t]) == multiset(a) + multiset{t}
  {
  }

  lemma StepRevocations(s: State, e: Event, did: string)
    ensures Revocations(Step(s, e).log, did)
         == Revocations(s.log, did) + (if s.audited && e == Remove(did) && did in s.store then 1 else 0)
  {
    hide Revocations;
    match e
    case Add(_, _) =>
    case Remove(d) => LogNext(s.log, Revoked(d), did);
    case BeginForward(_) =>
    case EndForward(k, accepted) =>
      if k < |s.inFlight| {
        LogNext(s.log, Forwarded(s.inFlight[k], accepted), did);
      }
    case _ =>
  }

  /** In every run, each forwarder call started is in flight, cancelled or logged, once; and the
      log shows one revocation for each removal that found an anchor, if the store is audited. */
  lemma {:induction false} ForwardsAccounted(audited: bool, events: seq<Event>, did: string)
    ensures Accounted(Run(audited, events)) && Run(audited, events).audited == audited
    ensures Revocations(Run(audited, events).log, did) == if audited then Removals(audited, events, did) else 0
  {
    if events != [] {
      var s, e := Run(audited, events[..|events| - 1]), events[|events| - 1];
      ForwardsAccounted(audited, events[..|events| - 1], did);
      StepAccounted(s, e);
      StepRevocations(s, e, did);
      assert Step(s, e).audited == s.audited;
      hide Step, Accounted, Revocations;
    }
  }

  /** How many of the calls went to `did`, at whatever URL. */
  function CallsTo(ts: seq<Target>, did: string): nat {
    if ts == [] then 0
    else CallsTo(ts[..|ts| - 1], did) + (if ts[|ts| - 1].did == did then 1 else 0)
  }

  /** Some anchor for `did` is added from position `n` on. */
  predicate AddedSince(events: seq<Event>, n: nat, did: string) {
    exists i | n <= i < |events| :: events[i].Add? && events[i].anchor.did == did
  }

  /** After a removal, and until an anchor for the same peer is added, no call to that peer
      starts, whoever still holds the removed anchor. */
  lemma {:induction false} NoForwardAfterRemoval(audited: bool, events: seq<Event>, n: nat, did: string)
    requires 0 < n <= |events| && events[n - 1] == Remove(did) && !AddedSince(events, n, did)
    ensures did !in Run(audited, events).store
    ensures CallsTo(Run(audited, events).started, did) == CallsTo(Run(audited, events[..n]).started, did)
    decreases |events|
  {
    hide Step, CallsTo;
    var init, e := events[..|events| - 1], events[|events| - 1];
    if n == |events| {
      assert events[..n] == events;
      JustRemoved(Run(audited, init), did);
    } else {
      assert init[..n] == events[..n];
      assert !AddedSince(init, n, did) by {
        assert forall i | n <= i < |init| :: init[i] == events[i];
      }
      NoForwardAfterRemoval(audited, init, n, did);
      assert !(e.Add? && e.anchor.did == did);
      StaysRemoved(Run(audited, init), e, did);
    }
  }

  lemma StaysRemoved(s: State, e: Event, did: string)
    requires did !in s.store && !(e.Add? && e.anchor.did == did)
    ensures did !in Step(s, e).store && CallsTo(Step(s, e).started, did) == CallsTo(s.started, did)
  {
    if e.BeginForward? {
      assert (s.started + [TargetOf(e.peer)])[..|s.started|] == s.started;
    }
  }

  lemma JustRemoved(s: State, did: string)
    ensures did !in Step(s, Remove(did)).store
  {
  }

  lemma RunAppend(audited: bool, events: seq<Event>, e: Event)
    ensures Run(audited, events + [e]) == Step(Run(audited, events), e)
  {
    assert (events + [e])[..|events|] == events;
  }

  // ----- what a forward does not look at --------------------------------------------------------

  /** A forward only asks whether an anchor is stored: a call starts although the anchor has
      expired by then, when it allows nothing any more. */
  lemma ExpiredStillForwarded(audited: bool, a: Anchor, now: int, later: int)
    requires a.signatureOk && now < a.expiresAt <= later
    ensures Run(audited, [] + [WithForwarder] + [Add(a, now)] + [BeginForward(a)]).started == [TargetOf(a)]
    ensures forall c :: !Allows(a, c, later)
  {
    RunAppend(audited, [], WithForwarder);
    RunAppend(audited, [] + [WithForwarder], Add(a, now));
    RunAppend(audited, [] + [WithForwarder] + [Add(a, now)], BeginForward(a));
  }

  /** And once a peer is added again, whoever still holds its removed anchor calls the removed URL. */
  lemma RemovedUrlCalled(audited: bool, a: Anchor, b: Anchor, now: int)
    requires a.signatureOk && b.signatureOk && now < a.expiresAt && now < b.expiresAt && a.did == b.did
    ensures var removed := [] + [WithForwarder] + [Add(a, now)] + [Remove(a.did)];
      var s := Run(audited, removed + [Add(b, now)] + [BeginForward(a)]);
      s.store == map[b.did := b] && s.started == [Target(a.did, a.url)]
  {
    var e1 := [] + [WithForwarder];
    var e2 := e1 + [Add(a, now)];
    var e3 := e2 + [Remove(a.did)];
    RunAppend(audited, [], WithForwarder);
    RunAppend(audited, e1, Add(a, now));
    RunAppend(audited, e2, Remove(a.did));
    RunAppend(audited, e3, Add(b, now));
    RunAppend(audited, e3 + [Add(b, now)], BeginForward(a));
    assert Run(audited, []).store == map[];
    assert map[a.did := a] - {a.did} == map[];
  }

  // ----- what is stored, and what is logged of the answers ---------------------------------------

  /** Event number `j` stores `a`: it is signed and has not expired. */
  predicate StoredAt(events: seq<Event>, j: nat, a: Anchor)
    requires j < |events|
  {
    events[j].Add? && events[j].anchor == a && a.signatureOk && events[j].now < a.expiresAt
  }

  /** The event stores another anchor for the peer, or removes it. */
  predicate Replaces(e: Event, did: string) {
    || (e.Add? && e.anchor.did == did && e.anchor.signatureOk && e.now < e.anchor.expiresAt)
    || e == Remove(did)
  }

  ghost predicate StoredSince(events: seq<Event>, n: nat, a: Anchor)
    requires n < |events|
  {
    StoredAt(events, n, a) && forall j: nat | n < j < |events| :: !Replaces(events[j], a.did)
  }

  ghost predicate IsStored(s: State, a: Anchor) { a.did in s.store && s.store[a.did] == a }

  ghost predicate WasStored(events: seq<Event>, a: Anchor) {
    exists n: nat | n < |events| :: StoredSince(events, n, a)
  }

  lemma StoreStep(s: State, e: Event, a: Anchor)
    ensures IsStored(Step(s, e), a) <==>
      || (e.Add? && e.anchor == a && a.signatureOk && e.now < a.expiresAt)
      || (IsStored(s, a) && !Replaces(e, a.did))
  {
  }

  lemma StoredNext(events: seq<Event>, a: Anchor)
    requires events != []
    ensures var init, last := events[..|events| - 1], |events| - 1;
      WasStored(events, a) <==> StoredAt(events, last, a) || (WasStored(init, a) && !Replaces(events[last], a.did))
  {
    var init, last := events[..|events| - 1], |events| - 1;
    assert StoredSince(events, last, a) <==> StoredAt(events, last, a);
    hide Replaces;
    if WasStored(init, a) && !Replaces(events[last], a.did) {
      var n: nat :| n < |init| && StoredSince(init, n, a);
      assert StoredSince(events, n, a);
    }
    if WasStored(events, a) {
      var n: nat :| n < |events| && StoredSince(events, n, a);
      if n < last {
        assert StoredSince(init, n, a);
      }
    }
  }

  /** Over every run: an anchor is stored exactly if it was added while signed and not expired, and
      none was stored for its peer, and the peer not removed, since then. */
  lemma {:induction false} StoreExactly(audited: bool, events: seq<Event>, a: Anchor)
    ensures IsStored(Run(audited, events), a) <==> WasStored(events, a)
  {
    if events != [] {
      hide Step, IsStored, WasStored, Replaces;
      var init, last := events[..|events| - 1], |events| - 1;
      StoreExactly(audited, init, a);
      StoreStep(Run(audited, init), events[last], a);
      StoredNext(events, a);
    }
  }

  /** The forwards in the log, in order. */
  function ForwardsIn(log: seq<Logged>): seq<Logged> {
    if log == [] then []
    else ForwardsIn(log[..|log| - 1]) + (if log[|log| - 1].Forwarded? then [log[|log| - 1]] else [])
  }

  /** The answers to the forwards, in the order in which they came. */
  function Answers(audited: bool, events: seq<Event>): seq<Logged> {
    if events == [] then []
    else
      var s, e := Run(audited, events[..|events| - 1]), events[|events| - 1];
      Answers(audited, events[..|events| - 1])
      + (if e.EndForward? && e.k < |s.inFlight| then [Forwarded(s.inFlight[e.k], e.accepted)] else [])
  }

  lemma ForwardsInNext(log: seq<Logged>, x: Logged)
    ensures ForwardsIn(log + [x]) == ForwardsIn(log) + (if x.Forwarded? then [x] else [])
  {
    assert (log + [x])[..|log|] == log;
  }

  lemma StepAnswers(s: State, e: Event)
    ensures ForwardsIn(Step(s, e).log)
         == ForwardsIn(s.log)
            + (if e.EndForward? && e.k < |s.inFlight| then [Forwarded(s.inFlight[e.k], e.accepted)] else [])
  {
    hide ForwardsIn;
    assert ForwardsIn(s.log) + [] == ForwardsIn(s.log);
    match e
    case Remove(d) => ForwardsInNext(s.log, Revoked(d));
    case EndForward(k, accepted) =>
      if k < |s.inFlight| {
        ForwardsInNext(s.log, Forwarded(s.inFlight[k], accepted));
      }
    case _ =>
  }

  /** Over every run: the log shows each answered forward once, in order, to the peer and URL it went
      to and with the answer it got. */
  lemma {:induction false} AnswersLogged(audited: bool, events: seq<Event>)
    ensures ForwardsIn(Run(audited, events).log) == Answers(audited, events)
  {
    if events != [] {
      hide Step, ForwardsIn;
      AnswersLogged(audited, events[..|events| - 1]);
      StepAnswers(Run(audited, events[..|events| - 1]), events[|events| - 1]);
    } else {
      assert Run(audited, events).log == [];
    }
  }

  /** A call starts exactly when a forwarder is there and an anchor is stored for the peer. */
  lemma StartsExactly(s: State, e: Event)
    ensures Step(s, e).started
         == s.started
            + (if e.BeginForward? && s.forwarder && e.peer.did in s.store then [Target(e.peer.did, e.peer.url)] else [])
  {
    assert s.started + [] == s.started;
  }
}
