/** Short runs from the start in which the proxy does not do what its parts seem to promise. */
module ProxyWitnesses {
  import opened Wrappers
  import opened ProxyMachine
  import opened ProxyInvariants
  import opened ProxySockets
  import S = SocketMachine

  ghost predicate RunTo(trace: seq<System>, actions: seq<Action>, sys: System) {
    SystemRun(trace, actions) && trace[|trace| - 1] == sys
  }

  lemma Begin(topic: string) returns (trace: seq<System>, actions: seq<Action>, sys: System)
    ensures RunTo(trace, actions, sys) && sys == ProxySockets.Start(topic, true, 1)
  {
    sys := ProxySockets.Start(topic, true, 1);
    trace, actions := [sys], [];
  }

  lemma Extend(trace: seq<System>, actions: seq<Action>, sys: System, action: Action)
    returns (trace': seq<System>, actions': seq<Action>, sys': System)
    requires RunTo(trace, actions, sys) && Possible(sys, action)
    ensures RunTo(trace', actions', sys') && sys' == After(sys, action)
  {
    sys' := After(sys, action);
    trace', actions' := trace + [sys'], actions + [action];
    hide Possible, After;
    forall i | 0 <= i < |actions'|
      ensures Possible(trace'[i], actions'[i]) && trace'[i + 1] == After(trace'[i], actions'[i])
    {
      if i < |actions| {
        assert trace'[i] == trace[i] && trace'[i + 1] == trace[i + 1] && actions'[i] == actions[i];
      }
    }
  }

  /** A step that says nothing upstream and makes no socket. */
  lemma Silent(trace: seq<System>, actions: seq<Action>, sys: System, step: Step)
    returns (trace': seq<System>, actions': seq<Action>, sys': System)
    requires RunTo(trace, actions, sys) && Enabled(sys.proxy, step) && !step.StartConnected?
    requires Next(sys.proxy, step).upstream == sys.proxy.upstream
    ensures RunTo(trace', actions', sys') && sys' == sys.(proxy := Next(sys.proxy, step))
  {
    trace', actions', sys' := Extend(trace, actions, sys, Handle(step));
    hide Next, Enabled;
    assert sys.proxy.upstream[|sys.proxy.upstream|..] == [];
    assert sys.links + [] == sys.links;
  }

  /** A start that resumes. */
  lemma Resume(trace: seq<System>, actions: seq<Action>, sys: System, client: string, ns: string)
    returns (trace': seq<System>, actions': seq<Action>, sys': System)
    requires RunTo(trace, actions, sys) && (client, ns) in sys.proxy.starting
    ensures RunTo(trace', actions', sys')
    ensures sys' == System(sys.topic, Resumed(sys.proxy, client, ns),
                           sys.links + [Link(S.StreamTopic(sys.topic, ns), S.NEW)])
  {
    trace', actions', sys' := Extend(trace, actions, sys, Handle(StartConnected(client, ns)));
    ResumedFrame(sys.proxy, client, ns);
    hide Resumed;
    assert sys.proxy.upstream[|sys.proxy.upstream|..] == [];
  }

  /** Something that happens to a socket. */
  lemma Happens(trace: seq<System>, actions: seq<Action>, sys: System, id: nat, event: S.Step)
    returns (trace': seq<System>, actions': seq<Action>, sys': System)
    requires RunTo(trace, actions, sys) && Possible(sys, Wire(id, event))
    ensures RunTo(trace', actions', sys')
    ensures var link := sys.links[id];
            sys' == sys.(links := sys.links[id := link.(socket := S.Next(link.socket, event, link.topic))])
  {
    trace', actions', sys' := Extend(trace, actions, sys, Wire(id, event));
  }

  /** `a` is connected and waits for the socket of `ns`. */
  lemma OneStarting(topic: string) returns (trace: seq<System>, actions: seq<Action>, sys: System)
    ensures RunTo(trace, actions, sys)
    ensures sys == System(topic, Init(true, 1).(connected := {"a"}, seen := {"a"}, awaitingAck := map["a" := []],
                                                starting := multiset{("a", "ns")}), [])
  {
    trace, actions, sys := Begin(topic);
    hide RunTo;
    trace, actions, sys := Silent(trace, actions, sys, Connect("a"));
    assert sys.proxy.awaitingAck == map["a" := []] && sys.proxy.connected == {"a"} && sys.proxy.seen == {"a"};
    trace, actions, sys := Silent(trace, actions, sys, ProxyMachine.Start("a", "ns"));
    assert sys.proxy.starting == multiset{("a", "ns")};
  }

  /** `a` has started `ns`, over a socket that is connecting. */
  lemma OneStarted(topic: string) returns (trace: seq<System>, actions: seq<Action>, sys: System)
    ensures RunTo(trace, actions, sys)
    ensures sys.proxy.connected == {"a"} && sys.proxy.sockets == map["ns" := 0] && sys.proxy.namespaceOrder == ["ns"]
    ensures sys.proxy.namespaceClients == map["ns" := ["a"]] && sys.proxy.awaitingAck == map["a" := []]
    ensures sys.proxy.upstream == [] && sys.links == [Link(S.StreamTopic(topic, "ns"), S.NEW)]
  {
    trace, actions, sys := OneStarting(topic);
    hide RunTo;
    assert [] + ["a"] == ["a"] && [] + ["ns"] == ["ns"];
    trace, actions, sys := Resume(trace, actions, sys, "a", "ns");
  }

  /** The last client of a namespace leaves: its socket is told to close, and nothing else is said. */
  lemma LastLeaves(trace: seq<System>, actions: seq<Action>, sys: System)
    returns (trace': seq<System>, actions': seq<Action>, sys': System)
    requires RunTo(trace, actions, sys)
    requires sys.proxy.connected == {"a"} && sys.proxy.sockets == map["ns" := 0] && sys.proxy.namespaceOrder == ["ns"]
    requires sys.proxy.namespaceClients == map["ns" := ["a"]] && sys.proxy.awaitingAck == map["a" := []]
    requires sys.proxy.upstream == [] && |sys.links| == 1
    ensures RunTo(trace', actions', sys')
    ensures sys'.proxy.connected == {} && sys'.proxy.sockets == map[] && sys'.proxy.namespaceClients == map[]
    ensures sys'.links == [Told(sys.links[0], Close(0))]
  {
    trace', actions', sys' := Extend(trace, actions, sys, Handle(Disconnect("a")));
    DisconnectAfter(sys, "a");
    OneLeaves(sys.proxy);
    TellClose(sys.links);
    hide *;
    SaysClose(sys.proxy, Disconnected(sys.proxy, "a"));
    SaysIsSince(sys.proxy);
  }

  lemma SaysIsSince(s: State)
    requires Enabled(s, Disconnect("a"))
    ensures Says(s, Disconnect("a")) == Since(s, Disconnected(s, "a"))
  {
    hide Since, Disconnected;
  }

  lemma SaysClose(s: State, s': State)
    requires s.upstream == [] && s'.upstream == [Close(0)]
    ensures Since(s, s') == [Close(0)]
  {
  }

  lemma TellClose(links: seq<Link>)
    requires |links| == 1
    ensures Tell(links, [Close(0)]) == [Told(links[0], Close(0))]
  {
    hide Told;
    assert [Close(0)][..0] == [];
  }

  lemma OneLeaves(s: State)
    requires s.connected == {"a"} && s.sockets == map["ns" := 0] && s.namespaceOrder == ["ns"]
    requires s.namespaceClients == map["ns" := ["a"]] && s.awaitingAck == map["a" := []] && s.upstream == []
    ensures var s' := Disconnected(s, "a");
            s'.connected == {} && s'.sockets == map[] && s'.namespaceClients == map[] && s'.upstream == [Close(0)]
  {
    Alone();
    hide Emptied, OfNamespace, CloseCalls, NackCalls, Keeping, Without;
    assert OfNamespace(Awaiting(s, "a"), "ns") == OfNamespace([], "ns");
    assert ClientsLeft(s.namespaceClients, ["ns"], ["ns"], "a") == map[];
    assert SocketsLeft(s.sockets, ["ns"]) == map[];
  }

  lemma Alone()
    ensures Emptied(map["ns" := ["a"]], ["ns"], "a") == ["ns"]
    ensures NackCalls(map["ns" := 0], "ns", "a", OfNamespace([], "ns")) == []
    ensures CloseCalls(map["ns" := 0], ["ns"]) == [Close(0)]
  {
    assert ["ns"][..0] == [] && ["a"][..0] == [];
    assert Without(["a"], "a") == [];
  }

  /**
   * The only client of a namespace leaves while its socket waits to connect again. The close does nothing
   * to a websocket that is closed already; the timer then connects anew and forgets that it was asked to
   * close. No client is left, no namespace and no map entry, and the socket is open.
   */
  lemma PendingReconnectOutlivesClose(topic: string) returns (trace: seq<System>, actions: seq<Action>, sys: System)
    ensures RunTo(trace, actions, sys)
    ensures sys.proxy.connected == {} && sys.proxy.sockets == map[] && sys.proxy.namespaceClients == map[]
    ensures |sys.links| == 1 && sys.links[0].socket.ws == S.OPEN && !sys.links[0].socket.closeRequested
  {
    trace, actions, sys := OneStarted(topic);
    hide RunTo;
    trace, actions, sys := Happens(trace, actions, sys, 0, S.ReportsClose);
    trace, actions, sys := LastLeaves(trace, actions, sys);
    trace, actions, sys := Happens(trace, actions, sys, 0, S.TimerFires);
    trace, actions, sys := Happens(trace, actions, sys, 0, S.Opens);
  }

  /**
   * Two clients start the same namespace before the first has its socket: both starts connect, the second
   * socket replaces the first, and the first stays open with nothing referring to it.
   */
  lemma OverlappingStartsLeakASocket(topic: string) returns (trace: seq<System>, actions: seq<Action>, sys: System)
    ensures RunTo(trace, actions, sys)
    ensures sys.proxy.sockets == map["ns" := 1]
    ensures |sys.links| == 2 && sys.links[0].socket.ws == S.OPEN && sys.links[1].socket.ws == S.OPEN
  {
    trace, actions, sys := OneStarting(topic);
    hide RunTo, Join, Acked, Delivered, LookedUp, Disconnected, Resumed;
    trace, actions, sys := Silent(trace, actions, sys, Connect("b"));
    trace, actions, sys := Silent(trace, actions, sys, ProxyMachine.Start("b", "ns"));
    assert sys.proxy.starting == multiset{("a", "ns"), ("b", "ns")};
    ResumedFrame(sys.proxy, "a", "ns");
    trace, actions, sys := Resume(trace, actions, sys, "a", "ns");
    assert sys.proxy.starting == multiset{("b", "ns")};
    ResumedFrame(sys.proxy, "b", "ns");
    trace, actions, sys := Resume(trace, actions, sys, "b", "ns");
    trace, actions, sys := Happens(trace, actions, sys, 0, S.Opens);
    trace, actions, sys := Happens(trace, actions, sys, 1, S.Opens);
  }

  /**
   * A client leaves while its start waits for the socket. The resumed start makes it a member all the same,
   * and the next message is held by a client that can neither ack it nor disconnect again.
   */
  lemma AbsentMemberHoldsMessage(topic: string)
    returns (trace: seq<System>, actions: seq<Action>, sys: System, m: BatchMessage)
    ensures RunTo(trace, actions, sys)
    ensures sys.proxy.connected == {} && sys.proxy.namespaceClients == map["ns" := ["a"]] && sys.proxy.sockets == map["ns" := 0]
    ensures InFlight(sys.proxy.awaitingAck, "a", m) && sys.proxy.upstream == []
  {
    trace, actions, sys := OneStarting(topic);
    hide RunTo;
    trace, actions, sys := Silent(trace, actions, sys, Disconnect("a"));
    assert sys.proxy.connected == {} && sys.proxy.awaitingAck == map["a" := []];
    assert [] + ["a"] == ["a"];
    trace, actions, sys := Resume(trace, actions, sys, "a", "ns");
    assert sys.proxy.namespaceClients["ns"] == ["a"];
    trace, actions, sys := Silent(trace, actions, sys, BatchArrives("ns", EventBatch(Some(1), [])));
    m := MessageOf(sys.proxy.queue[0], "id");
    trace, actions, sys := Silent(trace, actions, sys, Deliver("id", 0));
    assert sys.proxy.awaitingAck["a"] == [m];
  }
}
