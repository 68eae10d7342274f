/** The acks that go out on a websocket, as against those the proxy asks a socket to send. */
module ProxyWire {
  import opened Picking
  import opened Wrappers
  import opened ProxyMachine
  import opened ProxyInvariants
  import opened ProxyLists
  import opened ProxyProperties
  import opened ProxyPaced
  import opened ProxySockets
  import S = SocketMachine

  function AckFrames(frames: seq<S.Frame>): nat {
    if frames == [] then 0 else AckFrames(frames[..|frames| - 1]) + if frames[|frames| - 1].Ack? then 1 else 0
  }

  /** The ack frames sent by all sockets. */
  function WireAcks(links: seq<Link>): nat {
    if links == [] then 0 else WireAcks(links[..|links| - 1]) + AckFrames(links[|links| - 1].socket.sent)
  }

  /** The only message a client has in flight is acked, and its socket is open. */
  ghost predicate GoesOut(sys: System, action: Action) {
    && action.Handle? && action.step.ClientAck? && action.step.messageId.Some?
    && var s := sys.proxy;
    && action.step.client in s.awaitingAck && |s.awaitingAck[action.step.client]| == 1
    && var m := s.awaitingAck[action.step.client][0];
    && m.id == action.step.messageId.value
    && SocketOpen(sys, m.namespace)
  }

  ghost predicate SocketOpen(sys: System, ns: string) {
    && ns in sys.proxy.sockets && sys.proxy.sockets[ns] < |sys.links|
    && sys.links[sys.proxy.sockets[ns]].socket.ws == S.OPEN
  }

  lemma AckFramesNext(frames: seq<S.Frame>, frame: S.Frame)
    ensures AckFrames(frames + [frame]) == AckFrames(frames) + if frame.Ack? then 1 else 0
  {
    assert (frames + [frame])[..|frames|] == frames;
  }

  lemma {:induction false} WireAcksUpdate(links: seq<Link>, id: nat, link: Link)
    requires id < |links|
    ensures WireAcks(links[id := link]) == WireAcks(links) - AckFrames(links[id].socket.sent) + AckFrames(link.socket.sent)
  {
    var last := |links| - 1;
    if id == last {
      assert links[id := link][..last] == links[..last];
    } else {
      assert links[id := link][..last] == links[..last][id := link];
      WireAcksUpdate(links[..last], id, link);
    }
  }

  lemma WireAcksMore(links: seq<Link>, link: Link)
    requires link.socket.sent == []
    ensures WireAcks(links + [link]) == WireAcks(links)
  {
    assert (links + [link])[..|links|] == links;
  }

  function FrameOf(link: Link, call: UpstreamCall): seq<S.Frame> {
    if call.Close? || link.socket.ws != S.OPEN then []
    else if call.Ack? then [S.Ack(link.topic, call.message.batchNumber)]
    else [S.Nack(link.topic, call.message.batchNumber)]
  }

  lemma ToldSends(link: Link, call: UpstreamCall)
    ensures Told(link, call).socket.sent == link.socket.sent + FrameOf(link, call)
  {
  }

  lemma ToldAcks(link: Link, call: UpstreamCall)
    ensures AckFrames(Told(link, call).socket.sent)
         == AckFrames(link.socket.sent) + if call.Ack? && link.socket.ws == S.OPEN then 1 else 0
  {
    ToldSends(link, call);
    hide Told, AckFrames;
    if FrameOf(link, call) != [] {
      AckFramesNext(link.socket.sent, FrameOf(link, call)[0]);
    } else {
      assert link.socket.sent + [] == link.socket.sent;
    }
  }

  lemma {:induction false} TellWithoutAcks(links: seq<Link>, calls: seq<UpstreamCall>)
    requires forall call :: call in calls ==> !call.Ack?
    ensures WireAcks(Tell(links, calls)) == WireAcks(links)
  {
    if calls != [] {
      var before, call := Tell(links, calls[..|calls| - 1]), calls[|calls| - 1];
      TellWithoutAcks(links, calls[..|calls| - 1]);
      if call.socket < |before| {
        ToldAcks(before[call.socket], call);
        WireAcksUpdate(before, call.socket, Told(before[call.socket], call));
      }
    }
  }

  lemma TellAck(links: seq<Link>, call: UpstreamCall)
    requires call.Ack? && call.socket < |links|
    ensures WireAcks(Tell(links, [call])) == WireAcks(links) + if links[call.socket].socket.ws == S.OPEN then 1 else 0
  {
    assert [call][..0] == [];
    ToldAcks(links[call.socket], call);
    WireAcksUpdate(links, call.socket, Told(links[call.socket], call));
  }

  lemma WireEvent(link: Link, event: S.Step)
    requires ByItself(event) && S.Enabled(link.socket, event)
    ensures AckFrames(S.Next(link.socket, event, link.topic).sent) == AckFrames(link.socket.sent)
  {
    if event.Opens? {
      AckFramesNext(link.socket.sent, S.Listen(link.topic));
      AckFramesNext(link.socket.sent + [S.Listen(link.topic)], S.ListenReplies);
      assert link.socket.sent + [S.Listen(link.topic), S.ListenReplies] == link.socket.sent + [S.Listen(link.topic)] + [S.ListenReplies];
    }
  }

  /** What a client ack says upstream: the one message in flight, if that is the one acked. */
  lemma AckSaid(s: State, client: string, messageId: Option<string>)
    requires Structural(s) && Lifecycle(s) && client in s.connected
    ensures var says := Says(s, ClientAck(client, messageId));
            if messageId.Some? && client in s.awaitingAck && |s.awaitingAck[client]| == 1 && s.awaitingAck[client][0].id == messageId.value
            then var m := s.awaitingAck[client][0]; m.namespace in s.sockets && says == [Ack(s.sockets[m.namespace], client, m)]
            else says == []
  {
    if messageId.Some? && client in s.awaitingAck && FindId(s.awaitingAck[client], messageId.value).Some? {
      var m := FindId(s.awaitingAck[client], messageId.value).value;
      assert InFlight(s.awaitingAck, client, m);
      AckRule(s, client, m.id, m);
      hide Acked, Structural, Lifecycle;
      if |s.awaitingAck[client]| == 1 {
        assert m == s.awaitingAck[client][0];
      }
    } else if messageId.Some? && client in s.awaitingAck && |s.awaitingAck[client]| == 1 {
      assert s.awaitingAck[client][0] in s.awaitingAck[client];
    }
  }

  lemma HandleAcks(sys: System, step: Step)
    requires Possible(sys, Handle(step)) && ProxyInv(sys.proxy)
    requires Linked(sys.proxy.sockets, sys.proxy.socketCount, sys.links)
    ensures WireAcks(Tell(sys.links, Says(sys.proxy, step))) == WireAcks(sys.links) + if GoesOut(sys, Handle(step)) then 1 else 0
  {
    var s := sys.proxy;
    hide Tell, WireAcks;
    if step.ClientAck? {
      AckSaid(s, step.client, step.messageId);
      hide Structural, Lifecycle, ClientsSeen, Says, Enabled;
      var says := Says(s, step);
      if says != [] {
        TellAck(sys.links, says[0]);
      } else {
        TellWithoutAcks(sys.links, says);
      }
    } else {
      StepSays(s, step);
      if step.Disconnect? {
        DisconnectSays(s, step.client);
      }
      TellWithoutAcks(sys.links, Says(s, step));
    }
  }

  lemma ActionAcks(sys: System, action: Action)
    requires Possible(sys, action) && ProxyInv(sys.proxy)
    requires Linked(sys.proxy.sockets, sys.proxy.socketCount, sys.links)
    ensures WireAcks(After(sys, action).links) == WireAcks(sys.links) + if GoesOut(sys, action) then 1 else 0
  {
    hide ProxyInv, Linked, WireAcks, AckFrames, Tell, Says, Next;
    match action
    case Wire(id, event) =>
      var link := sys.links[id];
      WireEvent(link, event);
      WireAcksUpdate(sys.links, id, link.(socket := S.Next(link.socket, event, link.topic)));
    case Handle(step) =>
      HandleAcks(sys, step);
      var links := Tell(sys.links, Says(sys.proxy, step));
      if step.StartConnected? {
        WireAcksMore(links, Made(sys, step)[0]);
      } else {
        assert links + [] == links;
      }
  }

  ghost function CountBefore(trace: seq<System>, actions: seq<Action>, i: nat, counts: (System, Action) -> bool): nat
    requires i <= |actions| < |trace|
  {
    if i == 0 then 0
    else CountBefore(trace, actions, i - 1, counts) + if counts(trace[i - 1], actions[i - 1]) then 1 else 0
  }

  lemma CountNext(trace: seq<System>, actions: seq<Action>, i: nat, counts: (System, Action) -> bool)
    requires i < |actions| < |trace|
    ensures CountBefore(trace, actions, 0, counts) == 0
    ensures CountBefore(trace, actions, i + 1, counts)
         == CountBefore(trace, actions, i, counts) + if counts(trace[i], actions[i]) then 1 else 0
  {
  }

  lemma NothingSent(trace: seq<System>, actions: seq<Action>)
    requires SystemRun(trace, actions)
    ensures |trace| == |actions| + 1 && WireAcks(trace[0].links) == 0 && CountBefore(trace, actions, 0, GoesOut) == 0
  {
    hide Possible, After, GoesOut;
  }

  /**
   * The ack frames sent in a run are as many as the client acks that found their message alone in flight
   * and its socket open. An ack made while the socket reconnects is lost.
   */
  lemma {:induction false} AcksOnTheWire(trace: seq<System>, actions: seq<Action>, i: nat)
    requires SystemRun(trace, actions) && i < |trace|
    ensures |trace| == |actions| + 1
    ensures WireAcks(trace[i].links) == CountBefore(trace, actions, i, GoesOut)
  {
    hide *;
    NothingSent(trace, actions);
    if i > 0 {
      AcksOnTheWire(trace, actions, i - 1);
      EverySystemRun(trace, actions, i - 1);
      SystemStep(trace, actions, i - 1);
      ActionAcks(trace[i - 1], actions[i - 1]);
      CountNext(trace, actions, i - 1, GoesOut);
    }
  }

  // ---- paced runs ----

  ghost predicate PacedSystemRun(home: string -> string, trace: seq<System>, actions: seq<Action>) {
    && SystemRun(trace, actions)
    && forall i :: 0 <= i < |actions| && actions[i].Handle? ==> Paced(home, trace[i].proxy, actions[i].step)
  }

  lemma ActionPaced(home: string -> string, sys: System, action: Action)
    requires Possible(sys, action) && Structural(sys.proxy) && (action.Handle? ==> Paced(home, sys.proxy, action.step))
    requires AtHome(home, sys.proxy) && OneAtATime(sys.proxy.queue, sys.proxy.awaitingAck)
    ensures var s := After(sys, action).proxy; AtHome(home, s) && OneAtATime(s.queue, s.awaitingAck)
  {
    hide Structural, AtHome, OneAtATime, Enabled, Next, Paced, Tell, Says;
    if action.Handle? {
      StepAtHome(home, sys.proxy, action.step);
      StepOneAtATime(home, sys.proxy, action.step);
    }
  }

  lemma PacedLength(home: string -> string, trace: seq<System>, actions: seq<Action>)
    requires PacedSystemRun(home, trace, actions)
    ensures |trace| == |actions| + 1
  {
    hide Possible, After, Paced;
  }

  lemma PacedStep(home: string -> string, trace: seq<System>, actions: seq<Action>, i: nat)
    requires PacedSystemRun(home, trace, actions) && i < |actions|
    ensures Possible(trace[i], actions[i]) && trace[i + 1] == After(trace[i], actions[i])
    ensures Structural(trace[i].proxy)
    ensures actions[i].Handle? ==> Paced(home, trace[i].proxy, actions[i].step)
  {
    hide SystemRun, Possible, After, Paced, ProxyInv, Structural;
    PacedLength(home, trace, actions);
    EverySystemRun(trace, actions, i);
    SystemStep(trace, actions, i);
    KeepsShape(trace[i].proxy);
  }

  lemma PacedStart(home: string -> string, trace: seq<System>, actions: seq<Action>)
    requires PacedSystemRun(home, trace, actions)
    ensures AtHome(home, trace[0].proxy) && OneAtATime(trace[0].proxy.queue, trace[0].proxy.awaitingAck)
  {
    hide Possible, After, Paced, AtHome, OneAtATime;
    InitPaced(home, trace[0].proxy.configured, trace[0].proxy.listeners);
  }

  lemma {:induction false} PacedSystem(home: string -> string, trace: seq<System>, actions: seq<Action>, i: nat)
    requires PacedSystemRun(home, trace, actions) && i < |trace|
    ensures AtHome(home, trace[i].proxy) && OneAtATime(trace[i].proxy.queue, trace[i].proxy.awaitingAck)
  {
    hide *;
    PacedLength(home, trace, actions);
    if i == 0 {
      PacedStart(home, trace, actions);
    } else {
      PacedSystem(home, trace, actions, i - 1);
      PacedStep(home, trace, actions, i - 1);
      ActionPaced(home, trace[i - 1], actions[i - 1]);
    }
  }

  /** A client acks a message it holds, and the socket of the message is open. */
  ghost predicate ValidAndOpen(sys: System, action: Action) {
    && action.Handle? && ValidAck(sys.proxy, action.step)
    && SocketOpen(sys, FindId(sys.proxy.awaitingAck[action.step.client], action.step.messageId.value).value.namespace)
  }

  lemma ValidAckGoesOut(sys: System, action: Action)
    requires OneAtATime(sys.proxy.queue, sys.proxy.awaitingAck)
    ensures GoesOut(sys, action) <==> ValidAndOpen(sys, action)
  {
    if action.Handle? && action.step.ClientAck? && action.step.messageId.Some? && action.step.client in sys.proxy.awaitingAck {
      var msgs := sys.proxy.awaitingAck[action.step.client];
      assert |msgs| <= 1;
      if FindId(msgs, action.step.messageId.value).Some? {
        assert FindId(msgs, action.step.messageId.value).value == msgs[0];
      } else if |msgs| == 1 {
        assert msgs[0] in msgs;
      }
    }
  }

  /** In a paced run every valid client ack goes out, once, if the socket of its message is open, and no other does. */
  lemma {:induction false} PacedAcksGoOut(home: string -> string, trace: seq<System>, actions: seq<Action>, i: nat)
    requires PacedSystemRun(home, trace, actions) && i < |trace|
    ensures WireAcks(trace[i].links) == CountBefore(trace, actions, i, ValidAndOpen)
  {
    AcksOnTheWire(trace, actions, i);
    SameCount(home, trace, actions, i);
  }

  lemma {:induction false} SameCount(home: string -> string, trace: seq<System>, actions: seq<Action>, i: nat)
    requires PacedSystemRun(home, trace, actions) && i < |trace|
    ensures CountBefore(trace, actions, i, GoesOut) == CountBefore(trace, actions, i, ValidAndOpen)
  {
    hide GoesOut, ValidAndOpen, OneAtATime;
    if i > 0 {
      SameCount(home, trace, actions, i - 1);
      PacedSystem(home, trace, actions, i - 1);
      ValidAckGoesOut(trace[i - 1], actions[i - 1]);
    }
  }

  // ---- what goes out, and for which stream ----

  /** The socket of each namespace is for the stream of the topic and that namespace. */
  ghost predicate OwnTopics(sys: System) {
    forall ns :: ns in sys.proxy.sockets && sys.proxy.sockets[ns] < |sys.links| ==>
      sys.links[sys.proxy.sockets[ns]].topic == sys.topic + "/" + ns
  }

  lemma TellKeepsTopics(links: seq<Link>, calls: seq<UpstreamCall>)
    ensures forall id :: 0 <= id < |links| ==> Tell(links, calls)[id].topic == links[id].topic
  {
    hide Tell;
    forall id | 0 <= id < |links| ensures Tell(links, calls)[id].topic == links[id].topic {
      TellOne(links, calls, id);
    }
  }

  lemma DisconnectKeepsSockets(s: State, client: string)
    requires Structural(s)
    ensures forall ns :: ns in Disconnected(s, client).sockets ==> ns in s.sockets && Disconnected(s, client).sockets[ns] == s.sockets[ns]
  {
    DisconnectShrinks(s, client);
  }

  lemma StepSockets(s: State, step: Step)
    requires Structural(s) && Enabled(s, step)
    ensures forall ns :: ns in Next(s, step).sockets ==>
      if step.StartConnected? && step.namespace == ns then Next(s, step).sockets[ns] == s.socketCount
      else ns in s.sockets && Next(s, step).sockets[ns] == s.sockets[ns]
  {
    StepFrame(s, step);
    hide Structural, Acked, Delivered, LookedUp, Started, Resumed, Disconnected;
    if step.StartConnected? {
      ResumedFrame(s, step.client, step.namespace);
    } else if step.Disconnect? {
      DisconnectKeepsSockets(s, step.client);
    }
  }

  lemma ActionOwnTopics(sys: System, action: Action)
    requires Possible(sys, action) && Structural(sys.proxy) && OwnTopics(sys)
    requires Linked(sys.proxy.sockets, sys.proxy.socketCount, sys.links)
    ensures OwnTopics(After(sys, action)) && After(sys, action).topic == sys.topic
  {
    if action.Handle? {
      StepSockets(sys.proxy, action.step);
      TellKeepsTopics(sys.links, Says(sys.proxy, action.step));
    }
    hide Structural, Enabled, Next, Tell, Says;
  }

  lemma {:induction false} RunOwnTopics(trace: seq<System>, actions: seq<Action>, i: nat)
    requires SystemRun(trace, actions) && i < |trace|
    ensures OwnTopics(trace[i]) && trace[i].topic == trace[0].topic
  {
    hide ProxyInv, Linked, Possible, After, OwnTopics;
    StartOwnTopics(trace, actions);
    if i > 0 {
      RunOwnTopics(trace, actions, i - 1);
      EverySystemRun(trace, actions, i - 1);
      SystemStep(trace, actions, i - 1);
      KeepsShape(trace[i - 1].proxy);
      ActionOwnTopics(trace[i - 1], actions[i - 1]);
    }
  }

  lemma StartOwnTopics(trace: seq<System>, actions: seq<Action>)
    requires SystemRun(trace, actions)
    ensures OwnTopics(trace[0])
  {
    hide Possible, After;
  }

  /**
   * In every run of proxy and sockets, what the socket of a namespace has sent, apart from acks and nacks, is
   * by turns a listen for the stream of the topic and that namespace and a listenreplies, for each of its connections.
   */
  lemma SocketsListen(trace: seq<System>, actions: seq<Action>, i: nat, ns: string) returns (frames: seq<S.Frame>)
    requires SystemRun(trace, actions) && i < |trace| && ns in trace[i].proxy.sockets
    ensures trace[i].proxy.sockets[ns] < |trace[i].links|
    ensures var socket := trace[i].links[trace[i].proxy.sockets[ns]].socket;
            Picks(socket.sent, (f: S.Frame) => !f.Ack? && !f.Nack?, frames) && |frames| == 2 * socket.opens
    ensures forall k :: 0 <= k < |frames| ==> frames[k] == if k % 2 == 0 then S.Listen(trace[0].topic + "/" + ns) else S.ListenReplies
  {
    hide *;
    RunOwnTopics(trace, actions, i);
    EverySystemRun(trace, actions, i);
    var sys := trace[i];
    LinkedAt(sys.proxy.sockets, sys.proxy.socketCount, sys.links, ns);
    OwnTopic(sys, ns);
    frames := LinkListens(sys.links, sys.proxy.sockets[ns]);
  }

  lemma OwnTopic(sys: System, ns: string)
    requires OwnTopics(sys) && ns in sys.proxy.sockets && sys.proxy.sockets[ns] < |sys.links|
    ensures sys.links[sys.proxy.sockets[ns]].topic == sys.topic + "/" + ns
  {
  }

  lemma LinkListens(links: seq<Link>, id: nat) returns (frames: seq<S.Frame>)
    requires AllKeepInv(links) && id < |links|
    ensures Picks(links[id].socket.sent, (f: S.Frame) => !f.Ack? && !f.Nack?, frames) && |frames| == 2 * links[id].socket.opens
    ensures forall k :: 0 <= k < |frames| ==> frames[k] == if k % 2 == 0 then S.Listen(links[id].topic) else S.ListenReplies
  {
    hide Picks;
    assert S.Inv(links[id].socket, links[id].topic);
    frames :| Picks(links[id].socket.sent, (f: S.Frame) => !f.Ack? && !f.Nack?, frames)
              && S.Greetings(frames, links[id].topic, links[id].socket.opens);
  }

  /** A client acks the only message it holds over an open socket: one ack of its batch goes out for its stream, and nothing else. */
  lemma AckGoesOut(sys: System, client: string, m: BatchMessage)
    requires Possible(sys, Handle(ClientAck(client, Some(m.id)))) && ProxyInv(sys.proxy) && OwnTopics(sys)
    requires Linked(sys.proxy.sockets, sys.proxy.socketCount, sys.links)
    requires client in sys.proxy.awaitingAck && sys.proxy.awaitingAck[client] == [m] && SocketOpen(sys, m.namespace)
    ensures m.namespace in sys.proxy.sockets && sys.proxy.sockets[m.namespace] < |sys.links|
    ensures var link := sys.links[sys.proxy.sockets[m.namespace]];
            var sent := link.socket.sent + [S.Ack(sys.topic + "/" + m.namespace, m.batchNumber)];
            After(sys, Handle(ClientAck(client, Some(m.id)))).links
            == sys.links[sys.proxy.sockets[m.namespace] := link.(socket := link.socket.(sent := sent))]
  {
    AckSaid(sys.proxy, client, Some(m.id));
    LinkedAt(sys.proxy.sockets, sys.proxy.socketCount, sys.links, m.namespace);
    OwnTopic(sys, m.namespace);
    var call := Ack(sys.proxy.sockets[m.namespace], client, m);
    TellSingle(sys.links, call);
    hide Linked, OwnTopics, Says, ProxyInv, Tell, Next, Enabled;
    assert Tell(sys.links, [call]) + [] == Tell(sys.links, [call]);
  }

  lemma TellSingle(links: seq<Link>, call: UpstreamCall)
    requires call.socket < |links|
    ensures Tell(links, [call]) == links[call.socket := Told(links[call.socket], call)]
  {
    hide Told;
    assert [call][..0] == [];
  }

  /** The frames of some batches, in their order. */
  ghost predicate NackFrames(frames: seq<S.Frame>, topic: string, nacked: seq<BatchMessage>) {
    |frames| == |nacked| && forall k :: 0 <= k < |nacked| ==> frames[k] == S.Nack(topic, nacked[k].batchNumber)
  }

  /** Nacks told to one socket: their frames go out in their order, if it is open, and no other socket sends. */
  lemma {:induction false} TellNacks(links: seq<Link>, calls: seq<UpstreamCall>, id: nat, client: string, nacked: seq<BatchMessage>)
    returns (frames: seq<S.Frame>)
    requires id < |links| && |calls| == |nacked|
    requires forall k :: 0 <= k < |calls| ==> calls[k] == Nack(id, client, nacked[k])
    ensures NackFrames(frames, links[id].topic, nacked)
    ensures Tell(links, calls)[id].socket.sent == links[id].socket.sent + if links[id].socket.ws == S.OPEN then frames else []
    ensures Tell(links, calls)[id].socket.ws == links[id].socket.ws && Tell(links, calls)[id].topic == links[id].topic
    ensures forall other :: 0 <= other < |links| && other != id ==> Tell(links, calls)[other] == links[other]
  {
    if calls == [] {
      frames := [];
    } else {
      var n := |calls| - 1;
      var front := TellNacks(links, calls[..n], id, client, nacked[..n]);
      frames := front + [S.Nack(links[id].topic, nacked[n].batchNumber)];
      ToldSends(Tell(links, calls[..n])[id], calls[n]);
      hide NackFrames;
      MoreNackFrames(front, links[id].topic, nacked);
      assert links[id].socket.sent + frames == links[id].socket.sent + front + [S.Nack(links[id].topic, nacked[n].batchNumber)];
    }
  }

  lemma MoreNackFrames(frames: seq<S.Frame>, topic: string, nacked: seq<BatchMessage>)
    requires nacked != [] && NackFrames(frames, topic, nacked[..|nacked| - 1])
    ensures NackFrames(frames + [S.Nack(topic, nacked[|nacked| - 1].batchNumber)], topic, nacked)
  {
  }

  lemma {:induction false} TellCloses(links: seq<Link>, calls: seq<UpstreamCall>)
    requires forall k :: 0 <= k < |calls| ==> calls[k].Close?
    ensures forall id :: 0 <= id < |links| ==> Tell(links, calls)[id].socket.sent == links[id].socket.sent
  {
    if calls != [] {
      TellCloses(links, calls[..|calls| - 1]);
    }
  }

  lemma {:induction false} TellConcat(links: seq<Link>, a: seq<UpstreamCall>, b: seq<UpstreamCall>)
    ensures Tell(links, a + b) == Tell(Tell(links, a), b)
  {
    if b == [] {
      assert a + b == a;
    } else {
      assert (a + b)[..|a + b| - 1] == a + b[..|b| - 1];
      TellConcat(links, a, b[..|b| - 1]);
    }
  }

  /**
   * A client leaves: the nacks of its messages of the first open namespace go out on the socket of that
   * namespace, each with its batch number and in list order, if the socket is open. No other socket sends.
   */
  lemma NacksGoOut(sys: System, client: string) returns (nacked: seq<BatchMessage>, frames: seq<S.Frame>)
    requires Possible(sys, Handle(Disconnect(client))) && ProxyInv(sys.proxy) && OwnTopics(sys)
    requires Linked(sys.proxy.sockets, sys.proxy.socketCount, sys.links) && sys.proxy.namespaceOrder != []
    ensures var first := sys.proxy.namespaceOrder[0];
            && Picks(Awaiting(sys.proxy, client), (m: BatchMessage) => m.namespace == first, nacked)
            && NackFrames(frames, sys.topic + "/" + first, nacked)
            && first in sys.proxy.sockets && sys.proxy.sockets[first] < |sys.links|
            && forall id :: 0 <= id < |sys.links| ==>
                 After(sys, Handle(Disconnect(client))).links[id].socket.sent
                 == sys.links[id].socket.sent + if id == sys.proxy.sockets[first] && SocketOpen(sys, first) then frames else []
  {
    hide *;
    var s, first := sys.proxy, sys.proxy.namespaceOrder[0];
    nacked := OfNamespace(Awaiting(s, client), first);
    KeepsShape(s);
    OfNamespacePicks(Awaiting(s, client), first);
    FirstHasSocket(s);
    LinkedAt(s.sockets, s.socketCount, sys.links, first);
    OwnTopic(sys, first);
    var nacks, closes := DisconnectSaid(s, client);
    SaidIs(sys, client, nacks, closes);
    DisconnectAfter(sys, client);
    frames := NacksSent(sys.links, nacks, closes, s.sockets, first, client, nacked);
    SocketOpenIff(sys, first);
  }

  lemma SocketOpenIff(sys: System, ns: string)
    requires ns in sys.proxy.sockets && sys.proxy.sockets[ns] < |sys.links|
    ensures SocketOpen(sys, ns) <==> sys.links[sys.proxy.sockets[ns]].socket.ws == S.OPEN
  {
  }

  lemma NacksSent(links: seq<Link>, nacks: seq<UpstreamCall>, closes: seq<UpstreamCall>, sockets: map<string, nat>, first: string,
                  client: string, nacked: seq<BatchMessage>) returns (frames: seq<S.Frame>)
    requires first in sockets && sockets[first] < |links| && nacks == NackCalls(sockets, first, client, nacked)
    requires forall call :: call in closes ==> call.Close?
    ensures NackFrames(frames, links[sockets[first]].topic, nacked)
    ensures forall id :: 0 <= id < |links| ==>
              Tell(links, nacks + closes)[id].socket.sent
              == links[id].socket.sent + if id == sockets[first] && links[id].socket.ws == S.OPEN then frames else []
  {
    hide Tell, NackFrames;
    frames := TellNacks(links, nacks, sockets[first], client, nacked);
    TellConcat(links, nacks, closes);
    TellCloses(Tell(links, nacks), closes);
    forall id | 0 <= id < |links|
      ensures Tell(links, nacks + closes)[id].socket.sent
           == links[id].socket.sent + if id == sockets[first] && links[id].socket.ws == S.OPEN then frames else []
    {
      if id != sockets[first] {
        assert Tell(links, nacks)[id] == links[id];
      }
      assert links[id].socket.sent + [] == links[id].socket.sent;
    }
  }

  lemma SaidIs(sys: System, client: string, nacks: seq<UpstreamCall>, closes: seq<UpstreamCall>)
    requires Possible(sys, Handle(Disconnect(client)))
    requires Disconnected(sys.proxy, client).upstream == sys.proxy.upstream + nacks + closes
    ensures Enabled(sys.proxy, Disconnect(client)) && Says(sys.proxy, Disconnect(client)) == nacks + closes
  {
    hide Disconnected;
    Appended(sys.proxy.upstream, nacks, closes);
  }
}
