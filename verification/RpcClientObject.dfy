/** The RPC client as it runs: fields updated by its methods and by socket events. */
module RpcClientObject {
  import opened Basics
  import opened RpcClient

  class Client {
    var nextId: nat
    var pending: set<nat>
    var queue: seq<Msg>
    var socket: Option<nat>
    var reconnectAttempt: nat
    var closed: bool
    var hasHandler: bool
    /** The sockets made so far, by number, with their ready states. */
    var sockets: seq<Ready>
    var sent: seq<Msg>
    var settled: seq<Settlement>
    var streamed: nat
    ghost var dropped: seq<Msg>
    ghost var since: seq<Msg>
    ghost var failed: multiset<nat>
    /** Everything that has happened to this client. */
    ghost var events: seq<Event>

    ghost function Fields(): State
      reads this
    {
      State(nextId, pending, queue, socket, reconnectAttempt, closed, hasHandler, sockets,
            sent, dropped, settled, since, streamed, failed)
    }

    ghost predicate Valid()
      reads this
    {
      Fields() == Run(events)
    }

    constructor ()
      ensures Valid() && events == []
    {
      nextId, pending, queue, socket := 1, {}, [], None;
      reconnectAttempt, closed, hasHandler, sockets := 0, false, false, [];
      sent, settled, streamed, dropped, since, failed := [], [], 0, [], [], multiset{};
      events := [];
    }

    method OnStreamEvent()
      requires Valid()
      modifies this
      ensures Valid() && events == old(events) + [Event.OnStreamEvent]
      ensures Fields() == Step(old(Fields()), Event.OnStreamEvent)
    {
      RunAppend(events, Event.OnStreamEvent);
      hide Run;
      events := events + [Event.OnStreamEvent];
      hasHandler := true;
    }

    method Connect()
      requires Valid()
      modifies this
      ensures Valid() && events == old(events) + [Event.Connect]
      ensures Fields() == Step(old(Fields()), Event.Connect)
    {
      RunAppend(events, Event.Connect);
      hide Run;
      events := events + [Event.Connect];
      socket := Some(|sockets|);
      sockets := sockets + [Connecting];
    }

    /** Whether the current socket is open; the test before every send. */
    method Ready() returns (open: bool)
      ensures open == IsOpen(Fields())
    {
      open := socket.Some? && socket.value < |sockets| && sockets[socket.value] == Open;
    }

    method FlushQueue()
      modifies this
      ensures Fields() == Flush(old(Fields())) && events == old(events)
    {
      var open := Ready();
      if !open {
        return;
      }
      while |queue| > 0
        invariant sent + queue == old(sent + queue)
        invariant Fields() == old(Fields()).(queue := queue, sent := sent) && events == old(events)
        decreases |queue|
      {
        var msg := queue[0];
        queue := queue[1..];
        sent := sent + [msg];
      }
      since := [];
      assert sent == sent + queue;
    }

    /** The socket's open event. */
    method HandleOpen(k: nat)
      requires Valid()
      modifies this
      ensures Valid() && events == old(events) + [Opened(k)]
      ensures Fields() == Step(old(Fields()), Opened(k))
    {
      RunAppend(events, Opened(k));
      hide Run;
      events := events + [Opened(k)];
      if k < |sockets| && sockets[k] == Connecting {
        sockets := sockets[k := Open];
        reconnectAttempt := 0;
        FlushQueue();
      }
    }

    /** The peer starts closing an open socket. */
    method BeginClose(k: nat)
      requires Valid()
      modifies this
      ensures Valid() && events == old(events) + [SocketClosing(k)]
      ensures Fields() == Step(old(Fields()), SocketClosing(k))
    {
      RunAppend(events, SocketClosing(k));
      hide Run;
      events := events + [SocketClosing(k)];
      if k < |sockets| && sockets[k] == Open {
        sockets := sockets[k := Closing];
      }
    }

    /** The socket's close event; any socket's, current or not. */
    method HandleClose(k: nat)
      requires Valid()
      modifies this
      ensures Valid() && events == old(events) + [SocketClosed(k)]
      ensures Fields() == Step(old(Fields()), SocketClosed(k))
    {
      RunAppend(events, SocketClosed(k));
      hide Run;
      events := events + [SocketClosed(k)];
      if k < |sockets| && sockets[k] != Closed {
        sockets := sockets[k := Closed];
        socket := None;
        if !closed {
          reconnectAttempt := reconnectAttempt + 1;
        }
      }
    }

    /** A call; it throws, having used up an id, when its parameters cannot be serialised. */
    method Call(body: Option<string>) returns (id: nat)
      requires Valid()
      modifies this
      ensures Valid() && events == old(events) + [Invoke(body)]
      ensures Fields() == InvokeStep(old(Fields()), body) && id == old(nextId)
    {
      RunAppend(events, Invoke(body));
      hide Run;
      events := events + [Invoke(body)];
      id := nextId;
      nextId := nextId + 1;
      if body.None? {
        failed := failed + multiset{id};
        return;
      }
      Issue(Msg(id, body.value));
    }

    /** Makes the call pending and sends or queues its message. */
    method Issue(msg: Msg)
      requires nextId == msg.id + 1
      modifies this
      ensures Fields() == IssueStep(old(Fields()).(nextId := msg.id), msg.body) && events == old(events)
    {
      pending := pending + {msg.id};
      var open := Ready();
      if open {
        sent := sent + [msg];
      } else {
        Enqueue(msg);
      }
    }

    /** Queues a message, dropping the oldest one from a full queue. */
    method Enqueue(msg: Msg)
      modifies this`queue, this`dropped, this`since
      ensures queue == (if |old(queue)| >= QUEUE_LIMIT then old(queue)[1..] else old(queue)) + [msg]
      ensures dropped == old(dropped) + (if |old(queue)| >= QUEUE_LIMIT then [old(queue)[0]] else [])
      ensures since == old(since) + [msg]
    {
      if |queue| >= QUEUE_LIMIT {
        dropped := dropped + [queue[0]];
        queue := queue[1..];
      }
      queue := queue + [msg];
      since := since + [msg];
    }

    method HandleMessage(m: Incoming)
      requires Valid()
      modifies this
      ensures Valid() && events == old(events) + [Message(m)]
      ensures Fields() == MessageStep(old(Fields()), m)
    {
      RunAppend(events, Message(m));
      hide Run;
      events := events + [Message(m)];
      if m.Unparsable? {
        return;
      }
      if m.hasEventType && hasHandler {
        streamed := streamed + 1;
        return;
      }
      if m.id.None? {
        return;
      }
      var id := m.id.value;
      if id !in pending {
        return;
      }
      pending := pending - {id};
      if m.error.NullError? {
        return;
      }
      settled := settled + [Settlement(id, m.error.SomeError?)];
    }

    method Close()
      requires Valid()
      modifies this
      ensures Valid() && events == old(events) + [Event.Close]
      ensures Fields() == Step(old(Fields()), Event.Close)
    {
      RunAppend(events, Event.Close);
      hide Run;
      events := events + [Event.Close];
      closed := true;
      if socket.Some? && socket.value < |sockets| && sockets[socket.value] != Closed {
        sockets := sockets[socket.value := Closing];
      }
      pending := {};
    }
  }

  lemma RunAppend(events: seq<Event>, e: Event)
    ensures Run(events + [e]) == Step(Run(events), e)
  {
    assert (events + [e])[..|events|] == events;
  }
}
