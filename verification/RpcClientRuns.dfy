/** The fields of the RPC client after any run, told by what has happened and not by the steps. */
module RpcClientRuns {
  import opened Basics
  import opened RpcClient

  // ----- which calls are pending ---------------------------------------------------------

  /** Event number `n` issues the call `id`. */
  predicate IssuedAt(events: seq<Event>, n: nat, id: nat)
    requires n < |events|
  {
    events[n].Invoke? && events[n].body.Some? && Run(events[..n]).nextId == id
  }

  /** Event number `j` ends the call `id`: the client is closed, or a reply carries the id. */
  predicate EndedAt(events: seq<Event>, j: nat, id: nat)
    requires j < |events|
  {
    || events[j] == Close
    || (events[j].Message? && events[j].incoming.Object? && events[j].incoming.id == Some(id)
        && !(events[j].incoming.hasEventType && OnStreamEvent in events[..j]))
  }

  ghost predicate OpenSince(events: seq<Event>, n: nat, id: nat)
    requires n < |events|
  {
    IssuedAt(events, n, id) && forall j: nat | n < j < |events| :: !EndedAt(events, j, id)
  }

  lemma FlagsStep(s: State, e: Event)
    ensures Step(s, e).hasHandler <==> s.hasHandler || e == OnStreamEvent
    ensures Step(s, e).closed <==> s.closed || e == Close
  {
  }

  lemma {:induction false} HandlerExactly(events: seq<Event>)
    ensures Run(events).hasHandler <==> OnStreamEvent in events
    ensures Run(events).closed <==> Close in events
  {
    hide Step;
    if events != [] {
      var init, e := events[..|events| - 1], events[|events| - 1];
      HandlerExactly(init);
      FlagsStep(Run(init), e);
      assert events == init + [e];
    }
  }

  lemma PendingStep(s: State, e: Event, id: nat)
    ensures id in Step(s, e).pending <==>
      || (e.Invoke? && e.body.Some? && s.nextId == id)
      || (id in s.pending && e != Close
          && !(e.Message? && e.incoming.Object? && e.incoming.id == Some(id)
               && !(e.incoming.hasEventType && s.hasHandler)))
  {
  }

  lemma PendingNext(events: seq<Event>, id: nat)
    requires events != []
    ensures var init, last := events[..|events| - 1], |events| - 1;
      id in Run(events).pending <==>
        IssuedAt(events, last, id) || (id in Run(init).pending && !EndedAt(events, last, id))
  {
    hide Step;
    var init, last := events[..|events| - 1], |events| - 1;
    HandlerExactly(init);
    PendingStep(Run(init), events[last], id);
  }

  lemma OpenNext(events: seq<Event>, n: nat, id: nat)
    requires events != [] && n < |events| - 1
    ensures OpenSince(events, n, id) <==> OpenSince(events[..|events| - 1], n, id) && !EndedAt(events, |events| - 1, id)
  {
    hide Run;
    var init := events[..|events| - 1];
    assert init[..n] == events[..n];
    forall j: nat | j < |init| ensures EndedAt(init, j, id) <==> EndedAt(events, j, id) {
      assert init[..j] == events[..j];
    }
  }

  /** Some event has issued the call, and none after it has ended it. */
  ghost predicate IsOpenCall(events: seq<Event>, id: nat) {
    exists n: nat | n < |events| :: OpenSince(events, n, id)
  }

  lemma OpenCallNext(events: seq<Event>, id: nat)
    requires events != []
    ensures var init, last := events[..|events| - 1], |events| - 1;
      IsOpenCall(events, id) <==>
        IssuedAt(events, last, id) || (IsOpenCall(init, id) && !EndedAt(events, last, id))
  {
    hide EndedAt, IssuedAt, OpenSince;
    var init, last := events[..|events| - 1], |events| - 1;
    LastOpen(events, id);
    if IsOpenCall(init, id) && !EndedAt(events, last, id) {
      var n: nat :| n < |init| && OpenSince(init, n, id);
      OpenNext(events, n, id);
    }
    if IsOpenCall(events, id) {
      var n: nat :| n < |events| && OpenSince(events, n, id);
      if n < last {
        OpenNext(events, n, id);
      }
    }
  }

  /** Over every run: a call is pending exactly if it was issued with that id, whether the socket was
      open then or not, and since then neither was the client closed nor did a reply carry the id. */
  lemma {:induction false} PendingExactly(events: seq<Event>, id: nat)
    ensures id in Run(events).pending <==> IsOpenCall(events, id)
  {
    if events == [] {
      assert Run(events).pending == {};
    } else {
      hide Run, EndedAt, IssuedAt, IsOpenCall;
      PendingExactly(events[..|events| - 1], id);
      PendingNext(events, id);
      OpenCallNext(events, id);
    }
  }

  lemma LastOpen(events: seq<Event>, id: nat)
    requires events != []
    ensures OpenSince(events, |events| - 1, id) <==> IssuedAt(events, |events| - 1, id)
  {
  }

  // ----- which messages go out ---------------------------------------------------------------

  ghost predicate Known(s: State, m: Msg) { m in s.sent || m in s.queue || m in s.dropped }

  lemma KnownStep(s: State, e: Event, m: Msg)
    ensures Known(Step(s, e), m) <==> Known(s, m) || (e == Invoke(Some(m.body)) && s.nextId == m.id)
  {
    if e.Invoke? && e.body.Some? && |s.queue| >= QUEUE_LIMIT {
      assert s.queue == [s.queue[0]] + s.queue[1..];
    }
  }

  ghost predicate CalledAt(events: seq<Event>, n: nat, m: Msg)
    requires n < |events|
  {
    events[n] == Invoke(Some(m.body)) && Run(events[..n]).nextId == m.id
  }

  ghost predicate WasCalled(events: seq<Event>, m: Msg) {
    exists n: nat | n < |events| :: CalledAt(events, n, m)
  }

  lemma CalledNext(events: seq<Event>, m: Msg)
    requires events != []
    ensures WasCalled(events, m) <==> WasCalled(events[..|events| - 1], m) || CalledAt(events, |events| - 1, m)
  {
    hide Run;
    var init := events[..|events| - 1];
    if WasCalled(init, m) {
      var n: nat :| n < |init| && CalledAt(init, n, m);
      assert init[..n] == events[..n];
      assert CalledAt(events, n, m);
    }
    if WasCalled(events, m) {
      var n: nat :| n < |events| && CalledAt(events, n, m);
      if n < |init| {
        assert init[..n] == events[..n];
        assert CalledAt(init, n, m);
      }
    }
  }

  lemma KnownNext(events: seq<Event>, m: Msg)
    requires events != []
    ensures Known(Run(events), m) <==>
      Known(Run(events[..|events| - 1]), m) || CalledAt(events, |events| - 1, m)
  {
    hide Step, Known;
    KnownStep(Run(events[..|events| - 1]), events[|events| - 1], m);
  }

  /** Over every run: the messages sent, queued or dropped are exactly the calls made, each with the
      id it was given and the body it was made with. */
  lemma {:induction false} MessagesExactly(events: seq<Event>, m: Msg)
    ensures Known(Run(events), m) <==> WasCalled(events, m)
  {
    if events == [] {
      assert !Known(Run(events), m);
    } else {
      hide Run, Known, WasCalled, CalledAt;
      MessagesExactly(events[..|events| - 1], m);
      KnownNext(events, m);
      CalledNext(events, m);
    }
  }

  // ----- sockets and reconnects ------------------------------------------------------------------

  /** Event number `j` closes a socket that was not closed yet. */
  predicate LostAt(events: seq<Event>, j: nat)
    requires j < |events|
  {
    && events[j].SocketClosed? && events[j].socket < |Run(events[..j]).sockets|
    && Run(events[..j]).sockets[events[j].socket] != Closed
  }

  /** Event number `j` opens a connecting socket. */
  predicate OpenedAt(events: seq<Event>, j: nat)
    requires j < |events|
  {
    && events[j].Opened? && events[j].socket < |Run(events[..j]).sockets|
    && Run(events[..j]).sockets[events[j].socket] == Connecting
  }

  ghost predicate CurrentSince(events: seq<Event>, n: nat, k: nat)
    requires n < |events|
  {
    && events[n] == Connect && |Run(events[..n]).sockets| == k
    && forall j: nat | n < j < |events| :: events[j] != Connect && !LostAt(events, j)
  }

  lemma SocketNext(events: seq<Event>)
    requires events != []
    ensures var init, last := events[..|events| - 1], |events| - 1;
      Run(events).socket
      == if events[last] == Connect then Some(|Run(init).sockets|)
         else if LostAt(events, last) then None else Run(init).socket
  {
  }

  lemma CurrentNext(events: seq<Event>, n: nat, k: nat)
    requires events != [] && n < |events| - 1
    ensures CurrentSince(events, n, k) <==>
      CurrentSince(events[..|events| - 1], n, k) && events[|events| - 1] != Connect && !LostAt(events, |events| - 1)
  {
    hide Run;
    var init := events[..|events| - 1];
    assert init[..n] == events[..n];
    forall j: nat | j < |init| ensures LostAt(init, j) <==> LostAt(events, j) {
      assert init[..j] == events[..j];
    }
  }

  lemma LastCurrent(events: seq<Event>, k: nat)
    requires events != []
    ensures CurrentSince(events, |events| - 1, k) <==>
      events[|events| - 1] == Connect && |Run(events[..|events| - 1]).sockets| == k
  {
  }

  /** Over every run: the current socket is the one the last connect made, until any socket, that
      one or an older one, is closed. */
  lemma {:induction false} SocketExactly(events: seq<Event>, k: nat)
    ensures Run(events).socket == Some(k) <==> exists n: nat | n < |events| :: CurrentSince(events, n, k)
  {
    if events == [] {
      assert Run(events).socket == None;
    } else {
      hide Run, LostAt, CurrentSince;
      var init, last := events[..|events| - 1], |events| - 1;
      SocketExactly(init, k);
      SocketNext(events);
      LastCurrent(events, k);
      if Run(init).socket == Some(k) && events[last] != Connect && !LostAt(events, last) {
        var n: nat :| n < |init| && CurrentSince(init, n, k);
        CurrentNext(events, n, k);
      }
      forall n: nat | n < last && CurrentSince(events, n, k) ensures Run(events).socket == Some(k) {
        CurrentNext(events, n, k);
      }
    }
  }

  /** The closings that count as failed attempts: those since the last opening, before the client
      itself is closed. */
  ghost function Failures(events: seq<Event>): set<nat> {
    set j: nat | j < |events| && LostAt(events, j) && Close !in events[..j]
                 && (forall i: nat | j < i < |events| :: !OpenedAt(events, i))
  }

  lemma FailuresNext(events: seq<Event>)
    requires events != []
    ensures var init, last := events[..|events| - 1], |events| - 1;
      Failures(events) == (if OpenedAt(events, last) then {} else Failures(init))
                          + (if LostAt(events, last) && Close !in init then {last} else {})
    ensures |events| - 1 !in Failures(events[..|events| - 1])
  {
    hide Run;
    var init, last := events[..|events| - 1], |events| - 1;
    forall j: nat | j < |init| ensures init[..j] == events[..j] {
    }
    hide LostAt, OpenedAt;
    forall j: nat | j < |init| ensures LostAt(init, j) <==> LostAt(events, j) {
      SameAt(events, j);
    }
    forall j: nat | j < |init| ensures OpenedAt(init, j) <==> OpenedAt(events, j) {
      SameAt(events, j);
    }
    NotBoth(events, last);
  }

  lemma SameAt(events: seq<Event>, j: nat)
    requires j < |events| - 1
    ensures LostAt(events[..|events| - 1], j) <==> LostAt(events, j)
    ensures OpenedAt(events[..|events| - 1], j) <==> OpenedAt(events, j)
  {
    hide Run;
    assert events[..|events| - 1][..j] == events[..j];
  }

  lemma NotBoth(events: seq<Event>, j: nat)
    requires j < |events|
    ensures !(LostAt(events, j) && OpenedAt(events, j))
  {
  }

  lemma AttemptsNext(events: seq<Event>)
    requires events != []
    ensures var init, last := events[..|events| - 1], |events| - 1;
      Run(events).reconnectAttempt
      == if OpenedAt(events, last) then 0
         else Run(init).reconnectAttempt + (if LostAt(events, last) && Close !in init then 1 else 0)
  {
    HandlerExactly(events[..|events| - 1]);
  }

  /** Over every run: the backoff counts the sockets lost since one last opened. */
  lemma {:induction false} BackoffExactly(events: seq<Event>)
    ensures Run(events).reconnectAttempt == |Failures(events)|
  {
    if events == [] {
      assert Failures(events) == {};
      assert Run(events) == START;
    } else {
      BackoffExactly(events[..|events| - 1]);
      AttemptsNext(events);
      FailuresNext(events);
      NotBoth(events, |events| - 1);
      hide Run, LostAt, OpenedAt, Failures;
    }
  }

  // ----- open sockets, and what is sent on them -----------------------------------------------------

  /** Event number `i` starts or completes the closing of socket `k`. */
  predicate ShutAt(events: seq<Event>, i: nat, k: nat)
    requires i < |events|
  {
    || events[i] == SocketClosing(k) || events[i] == SocketClosed(k)
    || (events[i] == Close && Run(events[..i]).socket == Some(k))
  }

  ghost predicate OpenFrom(events: seq<Event>, n: nat, k: nat)
    requires n < |events|
  {
    && OpenedAt(events, n) && events[n].socket == k
    && forall i: nat | n < i < |events| :: !ShutAt(events, i, k)
  }

  ghost predicate IsReady(s: State, k: nat) { k < |s.sockets| && s.sockets[k] == Open }

  ghost predicate WasOpened(events: seq<Event>, k: nat) {
    exists n: nat | n < |events| :: OpenFrom(events, n, k)
  }

  lemma ReadyNext(events: seq<Event>, k: nat)
    requires events != []
    ensures var init, last := events[..|events| - 1], |events| - 1;
      IsReady(Run(events), k) <==>
        || (OpenedAt(events, last) && events[last].socket == k)
        || (IsReady(Run(init), k) && !ShutAt(events, last, k))
  {
    hide Step;
    ReadyStep(Run(events[..|events| - 1]), events[|events| - 1], k);
  }

  lemma ReadyStep(s: State, e: Event, k: nat)
    ensures IsReady(Step(s, e), k) <==>
      || (e == Opened(k) && k < |s.sockets| && s.sockets[k] == Connecting)
      || (IsReady(s, k) && e != SocketClosing(k) && e != SocketClosed(k) && !(e == Close && s.socket == Some(k)))
  {
  }

  lemma OpenFromNext(events: seq<Event>, n: nat, k: nat)
    requires events != [] && n < |events| - 1
    ensures OpenFrom(events, n, k) <==>
      OpenFrom(events[..|events| - 1], n, k) && !ShutAt(events, |events| - 1, k)
  {
    hide Run, OpenedAt;
    var init := events[..|events| - 1];
    SameAt(events, n);
    forall i: nat | i < |init| ensures ShutAt(init, i, k) <==> ShutAt(events, i, k) {
      assert init[..i] == events[..i];
    }
  }

  lemma LastOpened(events: seq<Event>, k: nat)
    requires events != []
    ensures OpenFrom(events, |events| - 1, k) <==> OpenedAt(events, |events| - 1) && events[|events| - 1].socket == k
  {
  }

  lemma OpenedNext(events: seq<Event>, k: nat)
    requires events != []
    ensures var init, last := events[..|events| - 1], |events| - 1;
      WasOpened(events, k) <==>
        || (OpenedAt(events, last) && events[last].socket == k)
        || (WasOpened(init, k) && !ShutAt(events, last, k))
  {
    hide OpenedAt, ShutAt, OpenFrom;
    var init, last := events[..|events| - 1], |events| - 1;
    LastOpened(events, k);
    if WasOpened(init, k) && !ShutAt(events, last, k) {
      var n: nat :| n < |init| && OpenFrom(init, n, k);
      OpenFromNext(events, n, k);
    }
    if WasOpened(events, k) {
      var n: nat :| n < |events| && OpenFrom(events, n, k);
      if n < last {
        OpenFromNext(events, n, k);
      }
    }
  }

  /** Over every run: a socket is open exactly if it has opened and nothing has closed it since. */
  lemma {:induction false} ReadyExactly(events: seq<Event>, k: nat)
    ensures IsReady(Run(events), k) <==> WasOpened(events, k)
  {
    if events == [] {
      assert Run(events) == START;
    } else {
      hide Run, IsReady, WasOpened, OpenedAt, ShutAt;
      ReadyExactly(events[..|events| - 1], k);
      ReadyNext(events, k);
      OpenedNext(events, k);
    }
  }

  /** Nothing is sent but on an open current socket; and a call made on one goes out at once. */
  lemma SendsExactly(s: State, e: Event)
    requires Inv(s)
    ensures Step(s, e).sent != s.sent ==>
      var k := Step(s, e).socket; k.Some? && IsReady(Step(s, e), k.value)
    ensures e.Invoke? && e.body.Some? && s.socket.Some? && IsReady(s, s.socket.value) ==>
      Step(s, e).sent == s.sent + [Msg(s.nextId, e.body.value)]
  {
    hide InOrder, Accounted, SettledOnce, Last64;
    assert s.sent + [] == s.sent;
  }

  /** Over every run: the queue holds the last 64, or all, of the calls queued since it was empty, and
      on an open current socket nothing. */
  lemma QueueExactly(events: seq<Event>)
    ensures var s := Run(events);
      && |s.queue| <= 64
      && s.queue == s.since[if |s.since| <= 64 then 0 else |s.since| - 64..]
      && (s.socket.Some? && IsReady(s, s.socket.value) ==> s.queue == [])
  {
    RunKeeps(events);
    hide Run, InOrder, Accounted, SettledOnce;
    assert Run(events).since[0..] == Run(events).since;
  }

  /** The messages that were stream events when they came: some handler was set. */
  ghost function Streamed(events: seq<Event>): set<nat> {
    set j: nat | j < |events| && events[j].Message? && events[j].incoming.Object? && events[j].incoming.hasEventType
                 && OnStreamEvent in events[..j]
  }

  lemma StreamedNext(events: seq<Event>)
    requires events != []
    ensures var init, last := events[..|events| - 1], |events| - 1;
      && Streamed(events) == Streamed(init)
           + (if events[last].Message? && events[last].incoming.Object? && events[last].incoming.hasEventType
                 && OnStreamEvent in init then {last} else {})
      && last !in Streamed(init)
  {
    var init := events[..|events| - 1];
    assert forall j: nat | j < |init| :: init[..j] == events[..j] && init[j] == events[j];
  }

  lemma StreamedStep(s: State, e: Event)
    ensures Step(s, e).streamed
         == s.streamed + (if e.Message? && e.incoming.Object? && e.incoming.hasEventType && s.hasHandler then 1 else 0)
  {
  }

  /** Over every run: the handler gets each message that is a stream event, once. */
  lemma {:induction false} StreamedExactly(events: seq<Event>)
    ensures Run(events).streamed == |Streamed(events)|
  {
    if events == [] {
      assert Streamed(events) == {};
    } else {
      hide Step, Streamed;
      var init := events[..|events| - 1];
      StreamedExactly(init);
      HandlerExactly(init);
      StreamedStep(Run(init), events[|events| - 1]);
      StreamedNext(events);
    }
  }
}
