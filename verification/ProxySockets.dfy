/**
 * The proxy together with its upstream sockets: every socket id of the proxy is a socket of SocketMachine
 * that connects, drops and reconnects by itself, and is told what the proxy says upstream. Which sockets
 * can still talk to upstream, and which of them the proxy can still reach.
 */
module ProxySockets {
  import opened Wrappers
  import opened ProxyMachine
  import opened ProxyInvariants
  import opened ProxyProperties
  import S = SocketMachine

  /** The topic of the stream a socket listens to, and the socket. */
  datatype Link = Link(topic: string, socket: S.State)

  /** Socket ids are positions in the list of all sockets ever made. */
  datatype System = System(topic: string, proxy: State, links: seq<Link>)

  /** A step of the proxy, or something that happens to one of its sockets. */
  datatype Action = Handle(step: Step) | Wire(id: nat, event: S.Step)

  function Start(topic: string, configured: bool, listeners: nat): System {
    System(topic, Init(configured, listeners), [])
  }

  /** What a socket makes of a call of the proxy. */
  function Told(link: Link, call: UpstreamCall): Link {
    var step := match call
                case Ack(_, _, m) => S.Sends(true, m.batchNumber)
                case Nack(_, _, m) => S.Sends(false, m.batchNumber)
                case Close(_) => S.CallsClose;
    link.(socket := S.Next(link.socket, step, link.topic))
  }

  function Tell(links: seq<Link>, calls: seq<UpstreamCall>): (r: seq<Link>)
    ensures |r| == |links|
  {
    if calls == [] then links
    else
      var before, call := Tell(links, calls[..|calls| - 1]), calls[|calls| - 1];
      if call.socket < |before| then before[call.socket := Told(before[call.socket], call)] else before
  }

  /** What a step says upstream. */
  function Says(s: State, step: Step): seq<UpstreamCall>
    requires Enabled(s, step)
  {
    Since(s, Next(s, step))
  }

  /** What may happen to a socket that nobody calls: all but close() and sending. */
  predicate ByItself(event: S.Step) {
    event.Opens? || event.ReportsClose? || event.TimerFires? || event.PongMissed?
  }

  ghost predicate Possible(sys: System, action: Action) {
    match action
    case Handle(step) => Enabled(sys.proxy, step)
    case Wire(id, event) => id < |sys.links| && ByItself(event) && S.Enabled(sys.links[id].socket, event)
  }

  /** A start that resumes brings a socket that has just been made. */
  function Made(sys: System, step: Step): seq<Link> {
    if step.StartConnected? then [Link(S.StreamTopic(sys.topic, step.namespace), S.NEW)] else []
  }

  function After(sys: System, action: Action): System
    requires Possible(sys, action)
  {
    match action
    case Handle(step) =>
      sys.(proxy := Next(sys.proxy, step), links := Tell(sys.links, Says(sys.proxy, step)) + Made(sys, step))
    case Wire(id, event) =>
      var link := sys.links[id];
      sys.(links := sys.links[id := link.(socket := S.Next(link.socket, event, link.topic))])
  }

  ghost predicate SystemRun(trace: seq<System>, actions: seq<Action>) {
    && |trace| == |actions| + 1
    && trace[0] == Start(trace[0].topic, trace[0].proxy.configured, trace[0].proxy.listeners)
    && forall i :: 0 <= i < |actions| ==> Possible(trace[i], actions[i]) && trace[i + 1] == After(trace[i], actions[i])
  }

  lemma SystemStep(trace: seq<System>, actions: seq<Action>, i: nat)
    requires SystemRun(trace, actions) && i < |actions|
    ensures Possible(trace[i], actions[i]) && trace[i + 1] == After(trace[i], actions[i])
  {
  }

  // ---- what is said upstream ----

  /** The sockets of the namespaces that a step closes. */
  ghost predicate Closes(s: State, step: Step, id: nat)
    requires Enabled(s, step)
  {
    Dropped(s.sockets, Next(s, step).sockets, id)
  }

  lemma Appended<T>(before: seq<T>, nacks: seq<T>, closes: seq<T>)
    ensures before <= before + nacks + closes
    ensures (before + nacks + closes)[|before|..] == nacks + closes
  {
  }

  lemma NacksAndCloses(nacks: seq<UpstreamCall>, closes: seq<UpstreamCall>)
    requires (forall call :: call in nacks ==> call.Nack?) && (forall call :: call in closes ==> call.Close?)
    ensures forall call :: call in nacks + closes ==> !call.Ack?
    ensures forall id :: Close(id) in nacks + closes <==> Close(id) in closes
  {
    assert forall id :: Close(id) !in nacks;
  }

  /** What is said upstream from s to s'. */
  function Since(s: State, s': State): seq<UpstreamCall> {
    if s.upstream <= s'.upstream then s'.upstream[|s.upstream|..] else []
  }

  lemma SinceIs(s: State, s': State, nacks: seq<UpstreamCall>, closes: seq<UpstreamCall>)
    requires s'.upstream == s.upstream + nacks + closes
    requires (forall call :: call in nacks ==> call.Nack?) && (forall call :: call in closes ==> call.Close?)
    ensures s.upstream <= s'.upstream
    ensures forall call :: call in Since(s, s') ==> !call.Ack?
    ensures forall id :: Close(id) in Since(s, s') <==> Close(id) in closes
  {
    Appended(s.upstream, nacks, closes);
    NacksAndCloses(nacks, closes);
  }

  lemma DisconnectSays(s: State, client: string)
    requires Structural(s) && client in s.connected
    ensures s.upstream <= Disconnected(s, client).upstream
    ensures forall call :: call in Says(s, Disconnect(client)) ==> !call.Ack?
    ensures forall id :: Close(id) in Says(s, Disconnect(client)) <==> Dropped(s.sockets, Disconnected(s, client).sockets, id)
  {
    hide Structural, Dropped, Disconnected, Since;
    if s.namespaceOrder != [] {
      var nacks, closes := DisconnectSaid(s, client);
      SinceIs(s, Disconnected(s, client), nacks, closes);
    } else {
      DisconnectOfNone(s, client);
    }
  }

  lemma DisconnectOfNone(s: State, client: string)
    requires Structural(s) && s.namespaceOrder == []
    ensures s.upstream <= Disconnected(s, client).upstream && Since(s, Disconnected(s, client)) == []
    ensures forall id :: !Dropped(s.sockets, Disconnected(s, client).sockets, id)
  {
    NoSockets(s);
    assert s.upstream[|s.upstream|..] == [];
  }

  lemma NoSockets(s: State)
    requires Structural(s) && s.namespaceOrder == []
    ensures s.sockets == map[]
  {
    assert forall ns :: ns in s.sockets ==> ns in s.namespaceOrder;
    assert s.sockets.Keys == {};
  }

  lemma AckSays(s: State, client: string, messageId: Option<string>)
    requires client in s.connected
    ensures s.upstream <= Acked(s, client, messageId).upstream
    ensures forall call :: call in Says(s, ClientAck(client, messageId)) ==> call.Ack?
    ensures |Says(s, ClientAck(client, messageId))| <= 1
  {
  }

  /** Only a disconnect closes, and it closes the sockets of the namespaces that are then gone. */
  lemma StepSays(s: State, step: Step)
    requires Structural(s) && Enabled(s, step)
    ensures forall id :: Close(id) in Says(s, step) <==> step.Disconnect? && Closes(s, step, id)
    ensures !step.ClientAck? && !step.Disconnect? ==> Says(s, step) == []
  {
    if step.Disconnect? {
      DisconnectSays(s, step.client);
    } else if step.ClientAck? {
      AckSays(s, step.client, step.messageId);
    } else {
      StepFrame(s, step);
      hide Next, Enabled, Structural;
      assert s.upstream[|s.upstream|..] == [];
    }
  }

  /** Telling a socket any number of things: a close is one for good, and acks and nacks change no more than what was sent. */
  ghost predicate ToldAll(before: S.State, now: S.State, closed: bool) {
    && now == before.(sent := now.sent, ws := now.ws, closeRequested := now.closeRequested)
    && now.ws == (if closed then S.Terminated(before.ws) else before.ws)
    && now.closeRequested == (before.closeRequested || closed)
  }

  lemma ToldMore(before: S.State, link: Link, call: UpstreamCall, closed: bool)
    requires ToldAll(before, link.socket, closed)
    ensures ToldAll(before, Told(link, call).socket, closed || call.Close?)
  {
  }

  lemma LastIn<T>(xs: seq<T>, x: T)
    requires xs != []
    ensures x in xs <==> x in xs[..|xs| - 1] || x == xs[|xs| - 1]
  {
    assert xs == xs[..|xs| - 1] + [xs[|xs| - 1]];
  }

  lemma {:induction false} TellOne(links: seq<Link>, calls: seq<UpstreamCall>, id: nat)
    requires id < |links|
    ensures Tell(links, calls)[id].topic == links[id].topic
    ensures ToldAll(links[id].socket, Tell(links, calls)[id].socket, Close(id) in calls)
  {
    if calls != [] {
      var before, call := Tell(links, calls[..|calls| - 1])[id], calls[|calls| - 1];
      TellOne(links, calls[..|calls| - 1], id);
      LastIn(calls, Close(id));
      ToldMore(links[id].socket, before, call, Close(id) in calls[..|calls| - 1]);
      assert Told(before, call).topic == before.topic;
      hide ToldAll, Told;
    }
  }

  // ---- sockets that can still talk ----

  /** The socket is closed and will not connect again. */
  predicate Ended(link: Link) {
    S.Finished(link.socket)
  }

  ghost predicate Referenced(sockets: map<string, nat>, id: nat) {
    exists ns :: ns in sockets && sockets[ns] == id
  }

  /** A socket that was asked to close is closing or closed. */
  predicate Sound(link: Link) {
    link.socket.closeRequested ==> link.socket.ws == S.CLOSING || link.socket.ws == S.CLOSED
  }

  /** The proxy's sockets are there, differ, and none was asked to close. */
  ghost predicate Linked(sockets: map<string, nat>, count: nat, links: seq<Link>) {
    && |links| == count
    && (forall ns :: ns in sockets ==> sockets[ns] < |links| && !links[sockets[ns]].socket.closeRequested)
    && (forall a, b :: a in sockets && b in sockets && sockets[a] == sockets[b] ==> a == b)
    && (forall id :: 0 <= id < |links| ==> Sound(links[id]))
  }

  /** Every socket the proxy does not refer to has ended. */
  ghost predicate NoneStray(sockets: map<string, nat>, links: seq<Link>) {
    forall id :: 0 <= id < |links| ==> Ended(links[id]) || Referenced(sockets, id)
  }

  lemma LinkedAt(sockets: map<string, nat>, count: nat, links: seq<Link>, ns: string)
    requires Linked(sockets, count, links) && ns in sockets
    ensures sockets[ns] < |links| && !links[sockets[ns]].socket.closeRequested && !Ended(links[sockets[ns]])
    ensures Referenced(sockets, sockets[ns])
  {
  }

  // ---- what happens to a socket by itself ----

  lemma WireKeeps(link: Link, event: S.Step)
    requires Sound(link) && ByItself(event) && S.Enabled(link.socket, event)
    ensures var link' := link.(socket := S.Next(link.socket, event, link.topic));
            && Sound(link')
            && (Ended(link') <==> Ended(link))
            && (!link.socket.closeRequested ==> !link'.socket.closeRequested)
  {
  }

  lemma WireLinked(sys: System, id: nat, event: S.Step)
    requires Possible(sys, Wire(id, event)) && Linked(sys.proxy.sockets, sys.proxy.socketCount, sys.links)
    ensures var sys' := After(sys, Wire(id, event));
            && Linked(sys.proxy.sockets, sys.proxy.socketCount, sys'.links)
            && (NoneStray(sys.proxy.sockets, sys'.links) <==> NoneStray(sys.proxy.sockets, sys.links))
  {
    WireKeeps(sys.links[id], event);
    hide Ended, Sound, S.Next, S.Enabled;
    var links, links' := sys.links, After(sys, Wire(id, event)).links;
    assert forall k :: 0 <= k < |links| && k != id ==> links'[k] == links[k];
    assert forall k :: 0 <= k < |links| ==> (Ended(links'[k]) <==> Ended(links[k]));
  }

  // ---- what the proxy does to its sockets ----

  /** A start that resumes over a socket, or a disconnect that closes one whose reconnect is pending. */
  ghost predicate Strands(sys: System, action: Action) {
    action.Handle? && (Overwrites(sys.proxy, action.step) || ClosesPending(sys, action.step))
  }

  ghost predicate Overwrites(s: State, step: Step) {
    step.StartConnected? && step.namespace in s.sockets
  }

  /** The client is the last of a namespace whose socket waits to connect again. */
  ghost predicate ClosesPending(sys: System, step: Step) {
    step.Disconnect? && exists ns :: LastOf(sys.proxy, step.client, ns) && Pending(sys, ns)
  }

  ghost predicate LastOf(s: State, client: string, ns: string) {
    ns in s.namespaceClients && s.namespaceClients[ns] == [client]
  }

  ghost predicate Pending(sys: System, ns: string) {
    && ns in sys.proxy.sockets && sys.proxy.sockets[ns] < |sys.links|
    && sys.links[sys.proxy.sockets[ns]].socket.timers > 0
  }

  lemma EmptiedIsLast(xs: seq<string>, x: string)
    requires NoDup(xs) && xs != []
    ensures Without(xs, x) == [] <==> xs == [x]
  {
    if Without(xs, x) == [] {
      forall i | 0 <= i < |xs| ensures xs[i] == x {
        assert xs[i] in xs && xs[i] !in Without(xs, x);
      }
    }
    if xs == [x] {
      assert forall y :: y in xs ==> y == x;
      assert Without(xs, x) == [] by {
        assert xs[..0] == [];
      }
    }
  }

  /** The namespaces a disconnect closes are those the client is the last of. */
  lemma DisconnectCloses(s: State, client: string, ns: string)
    requires Structural(s) && client in s.connected && ns in s.sockets
    ensures ns !in Disconnected(s, client).sockets <==> LastOf(s, client, ns)
    ensures ns in Disconnected(s, client).sockets ==> Disconnected(s, client).sockets[ns] == s.sockets[ns]
    ensures Disconnected(s, client).sockets.Keys <= s.sockets.Keys
  {
    assert ns in s.namespaceClients && ns in s.namespaceOrder;
    EmptiedIsLast(s.namespaceClients[ns], client);
  }

  /** A socket that the proxy closes ends unless a reconnect is pending, and every other stays as it was. */
  lemma ToldEnds(link: Link, link': Link, closed: bool)
    requires Sound(link) && ToldAll(link.socket, link'.socket, closed)
    ensures Sound(link')
    ensures if closed then Ended(link') <==> link.socket.timers == 0 else Ended(link') <==> Ended(link)
    ensures link'.socket.closeRequested == (link.socket.closeRequested || closed)
  {
  }

  // ---- one action ----

  lemma HandleQuiet(sys: System, step: Step)
    requires Possible(sys, Handle(step)) && !step.StartConnected? && !step.Disconnect?
    requires Structural(sys.proxy) && Linked(sys.proxy.sockets, sys.proxy.socketCount, sys.links)
    ensures var sys' := After(sys, Handle(step));
            && Linked(sys'.proxy.sockets, sys'.proxy.socketCount, sys'.links)
            && (NoneStray(sys'.proxy.sockets, sys'.links) <==> NoneStray(sys.proxy.sockets, sys.links))
  {
    StepSays(sys.proxy, step);
    StepFrame(sys.proxy, step);
    var links, links' := sys.links, Tell(sys.links, Says(sys.proxy, step));
    hide Next, Enabled, Structural, Says, Tell;
    assert links' + [] == links';
    forall id | 0 <= id < |links|
      ensures Sound(links'[id]) && (Ended(links'[id]) <==> Ended(links[id]))
      ensures links'[id].socket.closeRequested == links[id].socket.closeRequested
    {
      TellOne(links, Says(sys.proxy, step), id);
      ToldEnds(links[id], links'[id], false);
    }
    hide Ended, Sound;
  }

  lemma HandleResume(sys: System, client: string, ns: string)
    requires Possible(sys, Handle(StartConnected(client, ns)))
    requires Structural(sys.proxy) && Linked(sys.proxy.sockets, sys.proxy.socketCount, sys.links)
    ensures var sys' := After(sys, Handle(StartConnected(client, ns)));
            && Linked(sys'.proxy.sockets, sys'.proxy.socketCount, sys'.links)
            && (NoneStray(sys'.proxy.sockets, sys'.links)
                <==> NoneStray(sys.proxy.sockets, sys.links) && ns !in sys.proxy.sockets)
  {
    StepSays(sys.proxy, StartConnected(client, ns));
    ResumedFrame(sys.proxy, client, ns);
    hide Resumed, Structural, Says;
    Joined(sys.proxy.sockets, sys.proxy.socketCount, sys.links, ns, Made(sys, StartConnected(client, ns))[0]);
  }

  lemma Joined(sockets: map<string, nat>, count: nat, links: seq<Link>, ns: string, link: Link)
    requires Linked(sockets, count, links) && link.socket == S.NEW
    ensures Linked(sockets[ns := count], count + 1, links + [link])
    ensures NoneStray(sockets[ns := count], links + [link]) <==> NoneStray(sockets, links) && ns !in sockets
  {
    var sockets', links' := sockets[ns := count], links + [link];
    assert sockets'[ns] == count && Referenced(sockets', count);
    forall id | 0 <= id < count
      ensures Referenced(sockets', id) <==> Referenced(sockets, id) && !(ns in sockets && sockets[ns] == id)
    {
      if n :| n in sockets && sockets[n] == id && n != ns {
        assert sockets'[n] == id;
      }
    }
    if ns in sockets {
      LinkedAt(sockets, count, links, ns);
      assert links'[sockets[ns]] == links[sockets[ns]];
    }
    assert forall id :: 0 <= id < count ==> links'[id] == links[id];
    hide Ended, Referenced;
  }

  /** From one map of sockets to a part of it. */
  ghost predicate Shrinks(sockets: map<string, nat>, sockets': map<string, nat>) {
    forall ns :: ns in sockets' ==> ns in sockets && sockets'[ns] == sockets[ns]
  }

  /** The sockets that are dropped are told to close, and the others are told nothing that matters. */
  ghost predicate DroppedAreTold(sockets: map<string, nat>, sockets': map<string, nat>, links: seq<Link>, links': seq<Link>) {
    && |links'| == |links|
    && forall id :: 0 <= id < |links| ==> ToldAll(links[id].socket, links'[id].socket, Dropped(sockets, sockets', id))
  }

  ghost predicate DropsPending(sockets: map<string, nat>, sockets': map<string, nat>, links: seq<Link>) {
    exists id :: 0 <= id < |links| && Dropped(sockets, sockets', id) && links[id].socket.timers > 0
  }

  lemma ShrunkReferences(sockets: map<string, nat>, sockets': map<string, nat>, count: nat, links: seq<Link>, id: nat)
    requires Linked(sockets, count, links) && Shrinks(sockets, sockets')
    ensures Referenced(sockets', id) <==> Referenced(sockets, id) && !Dropped(sockets, sockets', id)
  {
    if ns :| ns in sockets && sockets[ns] == id && ns in sockets' {
      assert sockets'[ns] == id;
    }
  }

  lemma Left(sockets: map<string, nat>, sockets': map<string, nat>, count: nat, links: seq<Link>, links': seq<Link>)
    requires Linked(sockets, count, links) && Shrinks(sockets, sockets') && DroppedAreTold(sockets, sockets', links, links')
    ensures Linked(sockets', count, links')
    ensures NoneStray(sockets', links') <==> NoneStray(sockets, links) && !DropsPending(sockets, sockets', links)
  {
    forall id | 0 <= id < |links|
      ensures Referenced(sockets', id) <==> Referenced(sockets, id) && !Dropped(sockets, sockets', id)
      ensures Dropped(sockets, sockets', id) ==> Referenced(sockets, id)
      ensures Sound(links'[id])
      ensures if Dropped(sockets, sockets', id) then Ended(links'[id]) <==> links[id].socket.timers == 0
              else Ended(links'[id]) <==> Ended(links[id])
    {
      ShrunkReferences(sockets, sockets', count, links, id);
      ToldEnds(links[id], links'[id], Dropped(sockets, sockets', id));
    }
    forall ns | ns in sockets' ensures sockets'[ns] < |links'| && !links'[sockets'[ns]].socket.closeRequested {
      ShrunkReferences(sockets, sockets', count, links, sockets'[ns]);
      assert Referenced(sockets', sockets'[ns]);
      ToldEnds(links[sockets'[ns]], links'[sockets'[ns]], false);
    }
    hide Referenced, Dropped, Ended, Sound, ToldAll;
  }

  lemma DisconnectShrinks(s: State, client: string)
    requires Structural(s)
    ensures Shrinks(s.sockets, Disconnected(s, client).sockets)
  {
    if s.namespaceOrder != [] {
      hide Emptied, Keeping, ClientsLeft, CloseCalls, NackCalls, OfNamespace;
    }
  }

  /** A socket with a pending reconnect is dropped exactly when the client is the last of its namespace. */
  lemma PendingDropped(sys: System, client: string)
    requires Possible(sys, Handle(Disconnect(client))) && Structural(sys.proxy)
    requires Linked(sys.proxy.sockets, sys.proxy.socketCount, sys.links)
    ensures ClosesPending(sys, Disconnect(client))
       <==> DropsPending(sys.proxy.sockets, Disconnected(sys.proxy, client).sockets, sys.links)
  {
    var s := sys.proxy;
    forall ns | ns in s.sockets ensures ns !in Disconnected(s, client).sockets <==> LastOf(s, client, ns) {
      DisconnectCloses(s, client, ns);
    }
    hide Disconnected, LastOf, Enabled;
    if ClosesPending(sys, Disconnect(client)) {
      var ns :| LastOf(s, client, ns) && Pending(sys, ns);
      assert Dropped(s.sockets, Disconnected(s, client).sockets, s.sockets[ns]);
    }
    if id :| 0 <= id < |sys.links| && Dropped(s.sockets, Disconnected(s, client).sockets, id) && sys.links[id].socket.timers > 0 {
      var ns :| ns in s.sockets && ns !in Disconnected(s, client).sockets && s.sockets[ns] == id;
      assert Pending(sys, ns);
    }
  }

  lemma HandleDisconnect(sys: System, client: string)
    requires Possible(sys, Handle(Disconnect(client)))
    requires Structural(sys.proxy) && Linked(sys.proxy.sockets, sys.proxy.socketCount, sys.links)
    ensures var sys' := After(sys, Handle(Disconnect(client)));
            && Linked(sys'.proxy.sockets, sys'.proxy.socketCount, sys'.links)
            && (NoneStray(sys'.proxy.sockets, sys'.links)
                <==> NoneStray(sys.proxy.sockets, sys.links) && !ClosesPending(sys, Disconnect(client)))
  {
    DisconnectAfter(sys, client);
    DisconnectTold(sys, client);
    DisconnectShrinks(sys.proxy, client);
    PendingDropped(sys, client);
    hide *;
    Left(sys.proxy.sockets, Disconnected(sys.proxy, client).sockets, sys.proxy.socketCount, sys.links,
         Tell(sys.links, Says(sys.proxy, Disconnect(client))));
  }

  lemma DisconnectAfter(sys: System, client: string)
    requires Possible(sys, Handle(Disconnect(client)))
    ensures After(sys, Handle(Disconnect(client)))
         == sys.(proxy := Disconnected(sys.proxy, client), links := Tell(sys.links, Says(sys.proxy, Disconnect(client))))
    ensures Disconnected(sys.proxy, client).socketCount == sys.proxy.socketCount
  {
    DisconnectedFrame(sys.proxy, client);
    hide Disconnected, Says, Tell;
    var links := Tell(sys.links, Says(sys.proxy, Disconnect(client)));
    assert links + [] == links;
  }

  lemma DisconnectTold(sys: System, client: string)
    requires Possible(sys, Handle(Disconnect(client))) && Structural(sys.proxy)
    ensures DroppedAreTold(sys.proxy.sockets, Disconnected(sys.proxy, client).sockets, sys.links,
                           Tell(sys.links, Says(sys.proxy, Disconnect(client))))
  {
    hide Disconnected, Structural, Says, Tell, Dropped;
    DisconnectSays(sys.proxy, client);
    AllTold(sys.proxy.sockets, Disconnected(sys.proxy, client).sockets, sys.links, Says(sys.proxy, Disconnect(client)));
  }

  lemma AllTold(sockets: map<string, nat>, sockets': map<string, nat>, links: seq<Link>, calls: seq<UpstreamCall>)
    requires forall id :: Close(id) in calls <==> Dropped(sockets, sockets', id)
    ensures DroppedAreTold(sockets, sockets', links, Tell(links, calls))
  {
    hide Dropped, Tell, ToldAll;
    forall id | 0 <= id < |links| ensures ToldAll(links[id].socket, Tell(links, calls)[id].socket, Dropped(sockets, sockets', id)) {
      TellOne(links, calls, id);
      assert Close(id) in calls <==> Dropped(sockets, sockets', id);
    }
  }

  /** Every action keeps the sockets linked, and strands one exactly when it resumes over one or closes one that waits. */
  lemma ActionStrands(sys: System, action: Action)
    requires Possible(sys, action) && Structural(sys.proxy)
    requires Linked(sys.proxy.sockets, sys.proxy.socketCount, sys.links)
    ensures var sys' := After(sys, action);
            && Linked(sys'.proxy.sockets, sys'.proxy.socketCount, sys'.links)
            && (NoneStray(sys'.proxy.sockets, sys'.links)
                <==> NoneStray(sys.proxy.sockets, sys.links) && !Strands(sys, action))
  {
    hide Linked, NoneStray, Structural, Enabled, Tell, Says, Next;
    match action
    case Wire(id, event) => WireLinked(sys, id, event);
    case Handle(step) =>
      if step.StartConnected? {
        HandleResume(sys, step.client, step.namespace);
      } else if step.Disconnect? {
        HandleDisconnect(sys, step.client);
      } else {
        HandleQuiet(sys, step);
      }
  }

  // ---- which sockets can talk ----

  /** Without anyone calling it, the socket is or gets an open websocket. */
  ghost predicate CanTalk(link: Link) {
    exists events: seq<S.Step> ::
      && (forall k :: 0 <= k < |events| ==> ByItself(events[k]))
      && S.Run(link.socket, events, link.topic).ws == S.OPEN
  }

  lemma RunOne(s: S.State, events: seq<S.Step>, event: S.Step, topic: string)
    ensures S.Run(s, events + [event], topic)
         == var before := S.Run(s, events, topic); if S.Enabled(before, event) then S.Next(before, event, topic) else before
  {
    assert (events + [event])[..|events|] == events;
  }

  lemma RunTwo(s: S.State, first: S.Step, second: S.Step, topic: string)
    requires S.Enabled(s, first) && S.Enabled(S.Next(s, first, topic), second)
    ensures S.Run(s, [first], topic) == S.Next(s, first, topic)
    ensures S.Run(s, [first] + [second], topic) == S.Next(S.Next(s, first, topic), second, topic)
  {
    hide S.Next, S.Enabled;
    assert [first] == [] + [first];
    RunOne(s, [], first, topic);
    RunOne(s, [first], second, topic);
  }

  /** A socket that has not ended is open or connecting, waits to connect again, or has a close to report that nobody asked for. */
  lemma NotEnded(link: Link)
    requires S.Connects(link.socket) && Sound(link) && !Ended(link)
    ensures || link.socket.ws == S.OPEN || link.socket.ws == S.CONNECTING
            || link.socket.timers > 0 || (link.socket.Live() && !link.socket.closeRequested)
  {
  }

  /** The events that open a websocket again. */
  lemma ComesBack(link: Link)
    requires S.Connects(link.socket) && Sound(link) && !Ended(link)
    ensures CanTalk(link)
  {
    hide *;
    NotEnded(link);
    if link.socket.ws == S.OPEN {
      IsOpen(link);
    } else if link.socket.ws == S.CONNECTING {
      IsConnecting(link);
    } else if link.socket.timers > 0 {
      WaitsToComeBack(link);
    } else {
      DropsAndComesBack(link);
    }
  }

  lemma IsOpen(link: Link)
    requires link.socket.ws == S.OPEN
    ensures CanTalk(link)
  {
    Talks(link, []);
  }

  lemma IsConnecting(link: Link)
    requires link.socket.ws == S.CONNECTING
    ensures CanTalk(link)
  {
    RunOne(link.socket, [], S.Opens, link.topic);
    Talks(link, [] + [S.Opens]);
  }

  lemma WaitsToComeBack(link: Link)
    requires link.socket.timers > 0
    ensures CanTalk(link)
  {
    RunTwo(link.socket, S.TimerFires, S.Opens, link.topic);
    Talks(link, [S.TimerFires] + [S.Opens]);
  }

  lemma DropsAndComesBack(link: Link)
    requires link.socket.Live() && !link.socket.closeRequested
    ensures CanTalk(link)
  {
    RunTwo(link.socket, S.ReportsClose, S.TimerFires, link.topic);
    RunOne(link.socket, [S.ReportsClose] + [S.TimerFires], S.Opens, link.topic);
    Talks(link, [S.ReportsClose] + [S.TimerFires] + [S.Opens]);
  }

  lemma Talks(link: Link, events: seq<S.Step>)
    requires forall k :: 0 <= k < |events| ==> ByItself(events[k])
    requires S.Run(link.socket, events, link.topic).ws == S.OPEN
    ensures CanTalk(link)
  {
  }

  /** A socket that has ended will never talk again, and every other one can. */
  lemma CanTalkIff(link: Link)
    requires S.Inv(link.socket, link.topic) && Sound(link)
    ensures CanTalk(link) <==> !Ended(link)
  {
    assert S.Connects(link.socket);
    hide S.Greeted, S.Logs;
    if Ended(link) {
      forall events ensures S.Run(link.socket, events, link.topic).ws != S.OPEN {
        S.FinishedStays(link.socket, events, link.topic);
      }
    } else {
      ComesBack(link);
    }
  }

  ghost predicate AllKeepInv(links: seq<Link>) {
    forall id :: 0 <= id < |links| ==> S.Inv(links[id].socket, links[id].topic)
  }

  lemma {:induction false} TellKeepsInv(links: seq<Link>, calls: seq<UpstreamCall>)
    requires AllKeepInv(links)
    ensures AllKeepInv(Tell(links, calls))
  {
    if calls != [] {
      var before, call := Tell(links, calls[..|calls| - 1]), calls[|calls| - 1];
      TellKeepsInv(links, calls[..|calls| - 1]);
      if call.socket < |before| {
        ToldKeepsInv(before[call.socket], call);
      }
      hide S.Inv, Told;
    }
  }

  lemma ToldKeepsInv(link: Link, call: UpstreamCall)
    requires S.Inv(link.socket, link.topic)
    ensures S.Inv(Told(link, call).socket, Told(link, call).topic)
  {
    hide S.Inv;
    match call
    case Ack(_, _, m) => S.StepKeepsInv(link.socket, S.Sends(true, m.batchNumber), link.topic);
    case Nack(_, _, m) => S.StepKeepsInv(link.socket, S.Sends(false, m.batchNumber), link.topic);
    case Close(_) => S.StepKeepsInv(link.socket, S.CallsClose, link.topic);
  }

  lemma NewKeepsInv(topic: string)
    ensures S.Inv(S.NEW, topic)
  {
    S.NewKeepsInv(topic);
  }

  lemma ActionKeepsInv(sys: System, action: Action)
    requires Possible(sys, action) && AllKeepInv(sys.links)
    ensures AllKeepInv(After(sys, action).links)
  {
    match action
    case Wire(id, event) =>
      hide S.Inv;
      S.StepKeepsInv(sys.links[id].socket, event, sys.links[id].topic);
    case Handle(step) =>
      hide S.Inv, Tell, Says, Next;
      TellKeepsInv(sys.links, Says(sys.proxy, step));
      if step.StartConnected? {
        NewKeepsInv(S.StreamTopic(sys.topic, step.namespace));
      }
  }

  // ---- whole runs ----

  ghost predicate ProxyInv(s: State) {
    Structural(s) && Lifecycle(s) && ClientsSeen(s)
  }

  /** A start that resumes after its client has gone. */
  ghost predicate Strays(sys: System, action: Action) {
    action.Handle? && Stray(sys.proxy, action.step)
  }

  lemma StartHolds(topic: string, configured: bool, listeners: nat)
    ensures var sys := Start(topic, configured, listeners);
            && ProxyInv(sys.proxy) && AllConnected(sys.proxy) && AllKeepInv(sys.links)
            && Linked(sys.proxy.sockets, sys.proxy.socketCount, sys.links) && NoneStray(sys.proxy.sockets, sys.links)
  {
    InitHolds(configured, listeners);
    InitConnected(configured, listeners);
  }

  lemma ActionKeepsProxy(sys: System, action: Action)
    requires Possible(sys, action) && ProxyInv(sys.proxy)
    ensures ProxyInv(After(sys, action).proxy)
    ensures AllConnected(After(sys, action).proxy) <==> AllConnected(sys.proxy) && !Strays(sys, action)
  {
    if action.Handle? {
      StepIsStructural(sys.proxy, action.step);
      StepKeepsLifecycle(sys.proxy, action.step);
      StepSeen(sys.proxy, action.step);
      StepConnected(sys.proxy, action.step);
      hide Structural, Lifecycle, ClientsSeen, AllConnected, Next, Enabled, Tell, Says, Stray;
    }
  }

  lemma {:induction false} EverySystemRun(trace: seq<System>, actions: seq<Action>, i: nat)
    requires SystemRun(trace, actions) && i < |trace|
    ensures ProxyInv(trace[i].proxy) && AllKeepInv(trace[i].links)
    ensures Linked(trace[i].proxy.sockets, trace[i].proxy.socketCount, trace[i].links)
    ensures NoneStray(trace[i].proxy.sockets, trace[i].links) <==> NoneBefore(trace, actions, i, Strands)
    ensures AllConnected(trace[i].proxy) <==> NoneBefore(trace, actions, i, Strays)
  {
    hide ProxyInv, AllKeepInv, Linked, NoneStray, AllConnected, Possible, After, Strands, Strays;
    if i == 0 {
      StartHolds(trace[0].topic, trace[0].proxy.configured, trace[0].proxy.listeners);
    } else {
      var sys, action := trace[i - 1], actions[i - 1];
      EverySystemRun(trace, actions, i - 1);
      SystemStep(trace, actions, i - 1);
      ActionKeepsProxy(sys, action);
      ActionKeepsInv(sys, action);
      KeepsShape(sys.proxy);
      ActionStrands(sys, action);
      assert NoneBefore(trace, actions, i, Strands) <==> NoneBefore(trace, actions, i - 1, Strands) && !Strands(sys, action);
      assert NoneBefore(trace, actions, i, Strays) <==> NoneBefore(trace, actions, i - 1, Strays) && !Strays(sys, action);
    }
  }

  lemma KeepsShape(s: State)
    requires ProxyInv(s)
    ensures Structural(s)
  {
  }

  /**
   * At every moment of a run, the sockets that can still talk to upstream are those the proxy refers to, if
   * and only if no start has resumed for a namespace that had a socket by then, and no last client has left
   * a namespace whose socket was waiting to connect again.
   */
  lemma ReachableIffNoneStranded(trace: seq<System>, actions: seq<Action>, i: nat)
    requires SystemRun(trace, actions) && i < |trace|
    ensures (forall id :: 0 <= id < |trace[i].links| ==> (CanTalk(trace[i].links[id]) <==> Referenced(trace[i].proxy.sockets, id)))
       <==> NoneBefore(trace, actions, i, Strands)
  {
    EverySystemRun(trace, actions, i);
    hide NoneBefore;
    var sockets, links := trace[i].proxy.sockets, trace[i].links;
    forall id | 0 <= id < |links|
      ensures CanTalk(links[id]) <==> !Ended(links[id])
      ensures Referenced(sockets, id) ==> !Ended(links[id])
    {
      CanTalkIff(links[id]);
      if ns :| ns in sockets && sockets[ns] == id {
        LinkedAt(sockets, trace[i].proxy.socketCount, links, ns);
      }
    }
    hide CanTalk, Ended, Referenced;
  }

  /**
   * When no client is connected, nothing is left that can talk to upstream, if and only if no start has
   * resumed after its client had gone, and no socket was stranded.
   */
  lemma NothingTalksWithoutClientsIff(trace: seq<System>, actions: seq<Action>, i: nat)
    requires SystemRun(trace, actions) && i < |trace| && trace[i].proxy.connected == {}
    ensures (forall id :: 0 <= id < |trace[i].links| ==> !CanTalk(trace[i].links[id]))
       <==> NoneBefore(trace, actions, i, Strays) && NoneBefore(trace, actions, i, Strands)
  {
    EverySystemRun(trace, actions, i);
    hide NoneBefore;
    var s, links := trace[i].proxy, trace[i].links;
    NamespacesLeftIff(s);
    forall id | 0 <= id < |links| ensures CanTalk(links[id]) <==> !Ended(links[id]) {
      CanTalkIff(links[id]);
    }
    if s.sockets == map[] {
      assert forall id :: !Referenced(s.sockets, id);
    } else {
      var ns :| ns in s.sockets;
      LinkedAt(s.sockets, s.socketCount, links, ns);
    }
  }
}
