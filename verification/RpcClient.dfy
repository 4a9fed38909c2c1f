/**
 The TypeScript SDK's JSON-RPC client: numbered calls, a drop-oldest queue while there is
 no open socket, reconnecting sockets, and replies matched to pending calls by id.
*/
module RpcClient {
  import opened Basics

  datatype Ready = Connecting | Open | Closing | Closed

  datatype Msg = Msg(id: nat, body: string)

  /** The `error` member of a reply; null is a value that has no `code` to read. */
  datatype ErrorMember = NoError | NullError | SomeError

  /** What a message from the server parses to. Text that is not JSON and JSON that has no
      members both leave the client as it was; so does an id that is no number ever issued. */
  datatype Incoming =
    | Unparsable
    | Object(hasEventType: bool, id: Option<nat>, error: ErrorMember)

  datatype Settlement = Settlement(id: nat, isError: bool)

  /** The client's fields, the sockets it has made with their states, and the history: what was
      sent in order, what was dropped, what was settled, what was queued since the queue was last
      empty, and the ids used up by calls whose parameters could not be serialised. */
  datatype State = State(
    nextId: nat, pending: set<nat>, queue: seq<Msg>, socket: Option<nat>,
    reconnectAttempt: nat, closed: bool, hasHandler: bool,
    sockets: seq<Ready>,
    sent: seq<Msg>, dropped: seq<Msg>, settled: seq<Settlement>, since: seq<Msg>, streamed: nat,
    failed: multiset<nat>)

  datatype Event =
    | OnStreamEvent
    | Connect
    | Opened(socket: nat)
    | SocketClosing(socket: nat)
    | SocketClosed(socket: nat)
    | Invoke(body: Option<string>)
    | Message(incoming: Incoming)
    | Close

  const QUEUE_LIMIT := 64

  const START := State(1, {}, [], None, 0, false, false, [], [], [], [], [], 0, multiset{})

  predicate IsOpen(s: State) {
    s.socket.Some? && s.socket.value < |s.sockets| && s.sockets[s.socket.value] == Open
  }

  // ----- what each call and each socket event does --------------------------------------------

  function Flush(s: State): State {
    if !IsOpen(s) then s else s.(queue := [], sent := s.sent + s.queue, since := [])
  }

  /** A call; without a body when `JSON.stringify` throws on its parameters, after the id is taken. */
  function InvokeStep(s: State, body: Option<string>): State {
    if body.None? then s.(nextId := s.nextId + 1, failed := s.failed + multiset{s.nextId})
    else IssueStep(s, body.value)
  }

  function IssueStep(s: State, body: string): State {
    var msg := Msg(s.nextId, body);
    var s' := s.(nextId := s.nextId + 1, pending := s.pending + {s.nextId});
    if IsOpen(s) then s'.(sent := s.sent + [msg])
    else
      var full := |s.queue| >= QUEUE_LIMIT;
      s'.(queue := (if full then s.queue[1..] else s.queue) + [msg],
          dropped := s.dropped + (if full then [s.queue[0]] else []),
          since := s.since + [msg])
  }

  /** A reply takes its call out of the pending ones. Reading the code of a null error then
      throws before the call is settled. */
  function MessageStep(s: State, m: Incoming): State {
    if m.Unparsable? then s
    else if m.hasEventType && s.hasHandler then s.(streamed := s.streamed + 1)
    else if m.id.None? then s
    else if m.id.value !in s.pending then s
    else
      var s' := s.(pending := s.pending - {m.id.value});
      if m.error.NullError? then s'
      else s'.(settled := s.settled + [Settlement(m.id.value, m.error.SomeError?)])
  }

  /** A socket goes from connecting to open once; it may close at any time before it is closed. */
  function Step(s: State, e: Event): State {
    match e
    case OnStreamEvent => s.(hasHandler := true)
    case Connect => s.(socket := Some(|s.sockets|), sockets := s.sockets + [Connecting])
    case Opened(k) =>
      if k >= |s.sockets| || s.sockets[k] != Connecting then s
      else Flush(s.(sockets := s.sockets[k := Open], reconnectAttempt := 0))
    case SocketClosing(k) =>
      if k >= |s.sockets| || s.sockets[k] != Open then s else s.(sockets := s.sockets[k := Closing])
    case SocketClosed(k) =>
      if k >= |s.sockets| || s.sockets[k] == Closed then s
      else s.(sockets := s.sockets[k := Closed], socket := None,
              reconnectAttempt := if s.closed then s.reconnectAttempt else s.reconnectAttempt + 1)
    case Invoke(body) => InvokeStep(s, body)
    case Message(m) => MessageStep(s, m)
    case Close =>
      var s' := s.(closed := true, pending := {});
      if s.socket.Some? && s.socket.value < |s.sockets| && s.sockets[s.socket.value] != Closed
      then s'.(sockets := s.sockets[s.socket.value := Closing]) else s'
  }

  function Run(events: seq<Event>): State {
    if events == [] then START else Step(Run(events[..|events| - 1]), events[|events| - 1])
  }

  // ----- what every run keeps --------------------------------------------------------------------

  predicate Ascending(ms: seq<Msg>) {
    forall i, j | 0 <= i < j < |ms| :: ms[i].id < ms[j].id
  }

  predicate AllBelow(ms: seq<Msg>, n: nat) {
    forall i | 0 <= i < |ms| :: 1 <= ms[i].id < n
  }

  /** The ids issued before `n`. */
  function Issued(n: nat): multiset<nat> {
    if n <= 1 then multiset{} else Issued(n - 1) + multiset{n - 1}
  }

  function Ids(ms: seq<Msg>): multiset<nat> {
    if ms == [] then multiset{} else Ids(ms[..|ms| - 1]) + multiset{ms[|ms| - 1].id}
  }

  /** The last (at most) 64 of `ms`. */
  function Last64(ms: seq<Msg>): seq<Msg> {
    if |ms| <= QUEUE_LIMIT then ms else ms[|ms| - QUEUE_LIMIT..]
  }

  ghost predicate SettledOnce(s: State) {
    && (forall i, j | 0 <= i < j < |s.settled| :: s.settled[i].id != s.settled[j].id)
    && (forall i | 0 <= i < |s.settled| :: s.settled[i].id !in s.pending && 1 <= s.settled[i].id < s.nextId)
    && (forall id | id in s.pending :: 1 <= id < s.nextId)
  }

  /** What was sent, then what is queued, has strictly increasing ids below `n`. */
  ghost predicate InOrder(sent: seq<Msg>, queue: seq<Msg>, n: nat) {
    Ascending(sent + queue) && AllBelow(sent + queue, n)
  }

  /** Every id issued before `n` was sent, is queued, was dropped, or belongs to a call that could
      not be serialised: one of them, once. */
  ghost predicate Accounted(sent: seq<Msg>, queue: seq<Msg>, dropped: seq<Msg>, failed: multiset<nat>, n: nat) {
    Ids(sent) + Ids(queue) + Ids(dropped) + failed == Issued(n)
  }

  ghost predicate Inv(s: State) {
    && s.nextId >= 1
    && InOrder(s.sent, s.queue, s.nextId)
    && (IsOpen(s) ==> s.queue == [])
    && s.queue == Last64(s.since)
    && Accounted(s.sent, s.queue, s.dropped, s.failed, s.nextId)
    && SettledOnce(s)
  }

  lemma {:induction false} IdsAppend(a: seq<Msg>, b: seq<Msg>)
    ensures Ids(a + b) == Ids(a) + Ids(b)
  {
    if b == [] {
      assert a + b == a;
    } else {
      assert (a + b)[..|a + b| - 1] == a + b[..|b| - 1];
      IdsAppend(a, b[..|b| - 1]);
    }
  }

  lemma IdsOne(m: Msg)
    ensures Ids([m]) == multiset{m.id}
  {
    assert Ids([m][..0]) == multiset{};
  }

  lemma FlushOrder(sent: seq<Msg>, queue: seq<Msg>, dropped: seq<Msg>, failed: multiset<nat>, n: nat)
    requires InOrder(sent, queue, n) && Accounted(sent, queue, dropped, failed, n)
    ensures InOrder(sent + queue, [], n) && Accounted(sent + queue, [], dropped, failed, n)
  {
    assert sent + queue + [] == sent + queue;
    IdsAppend(sent, queue);
    NoIds();
  }

  lemma NoIds()
    ensures Ids([]) == multiset{}
  {
  }

  lemma IssueNext(n: nat)
    requires n >= 1
    ensures Issued(n + 1) == Issued(n) + multiset{n}
  {
  }

  lemma OrderNext(ms: seq<Msg>, m: Msg)
    requires m.id >= 1 && Ascending(ms) && AllBelow(ms, m.id)
    ensures Ascending(ms + [m]) && AllBelow(ms + [m], m.id + 1)
  {
  }

  lemma SendNext(sent: seq<Msg>, dropped: seq<Msg>, failed: multiset<nat>, m: Msg)
    requires m.id >= 1 && InOrder(sent, [], m.id) && Accounted(sent, [], dropped, failed, m.id)
    ensures InOrder(sent + [m], [], m.id + 1) && Accounted(sent + [m], [], dropped, failed, m.id + 1)
  {
    hide Ids, Issued, Ascending, AllBelow;
    assert sent + [] == sent && sent + [m] + [] == sent + [m];
    OrderNext(sent, m);
    IdsAppend(sent, [m]);
    IdsOne(m);
    IssueNext(m.id);
  }

  lemma QueueNext(sent: seq<Msg>, queue: seq<Msg>, dropped: seq<Msg>, failed: multiset<nat>, m: Msg)
    requires m.id >= 1 && InOrder(sent, queue, m.id) && Accounted(sent, queue, dropped, failed, m.id)
    ensures InOrder(sent, queue + [m], m.id + 1) && Accounted(sent, queue + [m], dropped, failed, m.id + 1)
  {
    hide Ids, Issued, Ascending, AllBelow;
    assert sent + (queue + [m]) == sent + queue + [m];
    OrderNext(sent + queue, m);
    IdsAppend(queue, [m]);
    IdsOne(m);
    IssueNext(m.id);
  }

  lemma DropOrder(sent: seq<Msg>, queue: seq<Msg>, n: nat)
    requires queue != [] && InOrder(sent, queue, n)
    ensures InOrder(sent, queue[1..], n)
  {
    var a, b := sent + queue, sent + queue[1..];
    forall i, j | 0 <= i < j < |b| ensures b[i].id < b[j].id {
      assert b[i] == a[if i < |sent| then i else i + 1] && b[j] == a[if j < |sent| then j else j + 1];
    }
    forall i | 0 <= i < |b| ensures 1 <= b[i].id < n {
      assert b[i] == a[if i < |sent| then i else i + 1];
    }
  }

  lemma DropOldest(sent: seq<Msg>, queue: seq<Msg>, dropped: seq<Msg>, failed: multiset<nat>, n: nat)
    requires queue != [] && InOrder(sent, queue, n) && Accounted(sent, queue, dropped, failed, n)
    ensures InOrder(sent, queue[1..], n) && Accounted(sent, queue[1..], dropped + [queue[0]], failed, n)
  {
    hide Ids, Issued, InOrder;
    DropOrder(sent, queue, n);
    IdsAppend([queue[0]], queue[1..]);
    assert [queue[0]] + queue[1..] == queue;
    IdsAppend(dropped, [queue[0]]);
  }

  /** The queue after queueing one more is again the last 64. */
  lemma QueueLast(queue: seq<Msg>, since: seq<Msg>, m: Msg)
    requires queue == Last64(since)
    ensures (if |queue| >= QUEUE_LIMIT then queue[1..] else queue) + [m] == Last64(since + [m])
  {
    var all := since + [m];
    if |since| >= QUEUE_LIMIT {
      assert queue[1..] + [m] == all[|all| - QUEUE_LIMIT..];
    }
  }

  lemma IssueKeeps(s: State, body: string)
    requires Inv(s)
    ensures Inv(IssueStep(s, body))
  {
    hide InOrder, Accounted, SettledOnce, Last64;
    var m := Msg(s.nextId, body);
    IssueSettles(s, body);
    QueueLast(s.queue, s.since, m);
    if IsOpen(s) {
      SendNext(s.sent, s.dropped, s.failed, m);
    } else if |s.queue| >= QUEUE_LIMIT {
      DropOldest(s.sent, s.queue, s.dropped, s.failed, s.nextId);
      QueueNext(s.sent, s.queue[1..], s.dropped + [s.queue[0]], s.failed, m);
    } else {
      QueueNext(s.sent, s.queue, s.dropped, s.failed, m);
      assert s.dropped + [] == s.dropped;
    }
  }

  lemma IssueSettles(s: State, body: string)
    requires SettledOnce(s) && s.nextId >= 1
    ensures SettledOnce(IssueStep(s, body))
  {
  }

  /** A call that cannot be serialised only uses up an id. */
  lemma FailKeeps(s: State)
    requires Inv(s)
    ensures Inv(InvokeStep(s, None))
  {
    hide Ids, Issued, Last64;
    IssueNext(s.nextId);
  }

  lemma MessageKeeps(s: State, m: Incoming)
    requires Inv(s)
    ensures Inv(MessageStep(s, m))
  {
    hide InOrder, Accounted, Last64;
  }

  lemma StepKeeps(s: State, e: Event)
    requires Inv(s)
    ensures Inv(Step(s, e))
  {
    hide InOrder, Accounted, SettledOnce;
    match e
    case Invoke(None) => FailKeeps(s);
    case Invoke(Some(body)) => IssueKeeps(s, body);
    case Message(m) => MessageKeeps(s, m);
    case Opened(k) =>
      SameSettled(s, Step(s, e));
      FlushOrder(s.sent, s.queue, s.dropped, s.failed, s.nextId);
    case _ =>
      SameSettled(s, Step(s, e));
      hide Last64;
  }

  lemma SameSettled(s: State, s': State)
    requires SettledOnce(s) && s'.settled == s.settled && s'.pending <= s.pending && s'.nextId == s.nextId
    ensures SettledOnce(s')
  {
  }

  /** Over every run: ids go out in strictly increasing order; an open current socket leaves
      nothing queued; the queue is exactly the last 64 of the calls queued since it was empty;
      every id issued is sent, queued, dropped or used up by a call that could not be serialised,
      once; and each call settles at most once. */
  lemma {:induction false} RunKeeps(events: seq<Event>)
    ensures Inv(Run(events))
  {
    if events == [] {
      NoIds();
    } else {
      RunKeeps(events[..|events| - 1]);
      StepKeeps(Run(events[..|events| - 1]), events[|events| - 1]);
    }
  }

  /** The event is a reply that settles a pending call, as `r` says. */
  predicate Replies(s: State, e: Event, r: Settlement) {
    && e.Message? && e.incoming.Object? && !(e.incoming.hasEventType && s.hasHandler)
    && e.incoming.id == Some(r.id) && r.id in s.pending
    && e.incoming.error == if r.isError then SomeError else NoError
  }

  lemma StepSettles(s: State, e: Event, r: Settlement)
    ensures r in Step(s, e).settled <==> r in s.settled || Replies(s, e, r)
  {
  }

  /** Event number `j` of the run is such a reply. */
  predicate ReplyAt(events: seq<Event>, j: nat, r: Settlement)
    requires j < |events|
  {
    Replies(Run(events[..j]), events[j], r)
  }

  lemma ReplyBefore(events: seq<Event>, j: nat, r: Settlement)
    requires j < |events| - 1
    ensures ReplyAt(events[..|events| - 1], j, r) <==> ReplyAt(events, j, r)
  {
    hide Replies, Run;
    assert events[..|events| - 1][..j] == events[..j];
  }

  lemma SettledNext(events: seq<Event>, r: Settlement)
    requires events != []
    ensures r in Run(events).settled
       <==> r in Run(events[..|events| - 1]).settled || ReplyAt(events, |events| - 1, r)
  {
    hide Step, Replies;
    StepSettles(Run(events[..|events| - 1]), events[|events| - 1], r);
  }

  ghost predicate SomeReply(events: seq<Event>, r: Settlement) {
    exists j: nat | j < |events| :: ReplyAt(events, j, r)
  }

  lemma SomeReplyNext(events: seq<Event>, r: Settlement)
    requires events != []
    ensures SomeReply(events, r) <==> SomeReply(events[..|events| - 1], r) || ReplyAt(events, |events| - 1, r)
  {
    hide ReplyAt;
    var init := events[..|events| - 1];
    if SomeReply(init, r) {
      var j: nat :| j < |init| && ReplyAt(init, j, r);
      ReplyBefore(events, j, r);
    }
    if SomeReply(events, r) {
      var j: nat :| j < |events| && ReplyAt(events, j, r);
      if j < |init| {
        ReplyBefore(events, j, r);
      }
    }
  }

  /** Over every run: the calls settled are exactly those for which a message with their own id
      came while they were pending and its error, if it has one, is not null; each is settled as
      that message says. */
  lemma {:induction false} SettlesOwnId(events: seq<Event>, r: Settlement)
    ensures r in Run(events).settled <==> SomeReply(events, r)
  {
    if events == [] {
      assert Run(events).settled == [];
    } else {
      hide Run, ReplyAt, SomeReply;
      SettlesOwnId(events[..|events| - 1], r);
      SettledNext(events, r);
      SomeReplyNext(events, r);
    }
  }

  /** The call was issued, is no longer pending and has not settled. */
  ghost predicate Abandoned(s: State, id: nat) {
    id < s.nextId && id !in s.pending && forall r | r in s.settled :: r.id != id
  }

  lemma AbandonedStays(s: State, e: Event, id: nat)
    requires Abandoned(s, id)
    ensures Abandoned(Step(s, e), id)
  {
  }

  lemma {:induction false} AbandonedForever(events: seq<Event>, n: nat, id: nat)
    requires n <= |events| && Abandoned(Run(events[..n]), id)
    ensures Abandoned(Run(events), id)
    decreases |events|
  {
    hide Step, Abandoned;
    if n == |events| {
      assert events[..n] == events;
    } else {
      var init := events[..|events| - 1];
      assert init[..n] == events[..n];
      AbandonedForever(init, n, id);
      AbandonedStays(Run(init), events[|events| - 1], id);
    }
  }

  /** A reply with the call's own id and a null error: the call is forgotten, not settled. */
  predicate NullReply(s: State, e: Event, id: nat) {
    && e.Message? && e.incoming.Object? && !(e.incoming.hasEventType && s.hasHandler)
    && e.incoming.id == Some(id) && e.incoming.error == NullError
  }

  lemma StepAbandons(s: State, e: Event, id: nat)
    requires Inv(s) && id in s.pending && (e == Close || NullReply(s, e, id))
    ensures Abandoned(Step(s, e), id)
  {
    hide InOrder, Accounted, Last64;
  }

  /** Exactly how a pending call is lost without being settled: by closing the client, or by a
      reply with its id and a null error. */
  lemma AbandonsExactly(s: State, e: Event, id: nat)
    requires Inv(s) && id in s.pending
    ensures Abandoned(Step(s, e), id) <==> e == Close || NullReply(s, e, id)
  {
    hide InOrder, Accounted, Last64;
    if e == Close || NullReply(s, e, id) {
      StepAbandons(s, e, id);
    }
  }

  /** Such a call never settles, whatever messages still come: its promise is neither resolved
      nor rejected. */
  lemma LostNeverSettles(events: seq<Event>, n: nat, id: nat)
    requires n < |events| && id in Run(events[..n]).pending
    requires events[n] == Close || NullReply(Run(events[..n]), events[n], id)
    ensures Abandoned(Run(events), id)
  {
    hide Step, Abandoned, Inv, Run, NullReply;
    RunKeeps(events[..n]);
    StepAbandons(Run(events[..n]), events[n], id);
    RunNext(events, n);
    AbandonedForever(events, n + 1, id);
  }

  lemma RunNext(events: seq<Event>, n: nat)
    requires n < |events|
    ensures Run(events[..n + 1]) == Step(Run(events[..n]), events[n])
  {
    assert events[..n + 1][..n] == events[..n];
  }

  /** The first call of a connected client, answered with a null error. */
  const NULL_REPLY: seq<Event> :=
    [Connect, Opened(0), Invoke(Some("call")), Message(Object(false, Some(1), NullError))]

  lemma NullErrorIsLost()
    ensures 1 in Run(NULL_REPLY[..3]).pending && Run(NULL_REPLY[..3]).sent == [Msg(1, "call")]
    ensures Abandoned(Run(NULL_REPLY), 1)
  {
    RunNext(NULL_REPLY, 0);
    RunNext(NULL_REPLY, 1);
    RunNext(NULL_REPLY, 2);
    assert Run(NULL_REPLY[..0]) == START;
    hide Run;
    LostNeverSettles(NULL_REPLY, 3, 1);
  }

  /** A call dropped from the full queue is never sent, whatever happens later. */
  lemma {:induction false} DroppedNeverSent(events: seq<Event>, m: Msg)
    requires m in Run(events).dropped
    ensures forall x | x in Run(events).sent :: x.id != m.id
  {
    RunKeeps(events);
    var s := Run(events);
    IssuedOnce(s.nextId, m.id);
    InIds(s.dropped, m);
    forall x | x in s.sent ensures x.id != m.id {
      InIds(s.sent, x);
      hide Ids, Issued;
      assert Issued(s.nextId)[m.id]
          == Ids(s.sent)[m.id] + Ids(s.queue)[m.id] + Ids(s.dropped)[m.id] + s.failed[m.id];
    }
  }

  lemma {:induction false} IssuedOnce(n: nat, id: nat)
    ensures Issued(n)[id] <= 1 && (id >= n ==> Issued(n)[id] == 0)
  {
    if n > 1 {
      IssuedOnce(n - 1, id);
    }
  }

  lemma {:induction false} InIds(ms: seq<Msg>, m: Msg)
    requires m in ms
    ensures Ids(ms)[m.id] >= 1
  {
    if ms[|ms| - 1] != m {
      assert m in ms[..|ms| - 1];
      InIds(ms[..|ms| - 1], m);
    }
  }
}
