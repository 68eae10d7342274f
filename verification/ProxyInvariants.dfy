/** What every run of the proxy keeps: the shape of its maps, and the life of each message. */
module ProxyInvariants {
  import opened Wrappers
  import opened ProxyMachine

  ghost predicate InFlight(awaiting: map<string, seq<BatchMessage>>, client: string, m: BatchMessage) {
    client in awaiting && m in awaiting[client]
  }

  ghost predicate DistinctIds(msgs: seq<BatchMessage>) {
    forall i, j :: 0 <= i < j < |msgs| ==> msgs[i].id != msgs[j].id
  }

  /** An upstream call that answers a message. */
  predicate Answers(call: UpstreamCall) {
    call.Ack? || call.Nack?
  }

  /**
   * The namespaces with a socket are those with a client set, no client set is empty, and a message is
   * only ever held by a member of its namespace.
   */
  ghost predicate Structural(s: State) {
    Shape(s.namespaceOrder, s.namespaceClients, s.sockets, s.awaitingAck)
  }

  ghost predicate Shape(order: seq<string>, clients: map<string, seq<string>>, sockets: map<string, nat>,
                        awaiting: map<string, seq<BatchMessage>>) {
    && NoDup(order)
    && (forall ns :: ns in order <==> ns in clients)
    && sockets.Keys == clients.Keys
    && (forall ns :: ns in clients ==> clients[ns] != [] && NoDup(clients[ns]))
    && (forall c, m :: InFlight(awaiting, c, m) ==> m.namespace in clients && c in clients[m.namespace])
  }

  /** A message has one holder, holds one place there, and is in flight only until it is answered, once. */
  ghost predicate Lifecycle(s: State) {
    && HeldOnce(s.awaitingAck)
    && WereSent(s.awaitingAck, s.usedIds, s.processed)
    && AnsweredOnce(s.upstream, s.awaitingAck, s.usedIds, s.processed)
  }

  ghost predicate HeldOnce(awaiting: map<string, seq<BatchMessage>>) {
    && (forall c :: c in awaiting ==> DistinctIds(awaiting[c]))
    && (forall c1, m1, c2, m2 ::
          InFlight(awaiting, c1, m1) && InFlight(awaiting, c2, m2) && m1.id == m2.id ==> c1 == c2)
  }

  ghost predicate WereSent(awaiting: map<string, seq<BatchMessage>>, ids: set<string>, processed: seq<Processed>) {
    forall c, m :: InFlight(awaiting, c, m) ==> m.id in ids && Sent(m, Some(c)) in processed
  }

  ghost predicate AnsweredOnce(calls: seq<UpstreamCall>, awaiting: map<string, seq<BatchMessage>>,
                               ids: set<string>, processed: seq<Processed>) {
    && (forall i :: 0 <= i < |calls| && Answers(calls[i]) ==>
          calls[i].message.id in ids && Sent(calls[i].message, Some(calls[i].client)) in processed)
    && (forall i, c, m :: 0 <= i < |calls| && Answers(calls[i]) && InFlight(awaiting, c, m) ==>
          m.id != calls[i].message.id)
    && (forall i, j :: 0 <= i < j < |calls| && Answers(calls[i]) && Answers(calls[j]) ==>
          calls[i].message.id != calls[j].message.id)
  }

  // ---- facts about the list functions ----

  lemma Snoc(msgs: seq<BatchMessage>, m: BatchMessage)
    requires DistinctIds(msgs) && forall x :: x in msgs ==> x.id != m.id
    ensures DistinctIds(msgs + [m])
  {
  }

  lemma {:induction false} SublistKeepsIds(msgs: seq<BatchMessage>, ns: string, id: string)
    requires DistinctIds(msgs)
    ensures DistinctIds(OfNamespace(msgs, ns)) && DistinctIds(WithoutId(msgs, id))
  {
    if msgs != [] {
      var front, last := msgs[..|msgs| - 1], msgs[|msgs| - 1];
      SublistKeepsIds(front, ns, id);
      forall m | m in front ensures m.id != last.id {
        var i :| 0 <= i < |front| && front[i] == m;
        assert msgs[i].id != msgs[|msgs| - 1].id;
      }
      Snoc(OfNamespace(front, ns), last);
      Snoc(WithoutId(front, id), last);
    }
  }

  lemma {:induction false} KeepingKeepsNoDup(order: seq<string>, gone: seq<string>)
    requires NoDup(order)
    ensures NoDup(Keeping(order, gone))
  {
    if order != [] {
      KeepingKeepsNoDup(order[..|order| - 1], gone);
      assert order[|order| - 1] !in order[..|order| - 1];
    }
  }

  // ---- structural invariant, step by step ----

  lemma JoinIsStructural(s: State, client: string, ns: string, socket: nat)
    requires Structural(s)
    ensures Structural(Join(s.(sockets := s.sockets[ns := socket]), client, ns))
  {
    var s' := Join(s.(sockets := s.sockets[ns := socket]), client, ns);
    assert s'.sockets.Keys == s'.namespaceClients.Keys;
    forall c, m | InFlight(s'.awaitingAck, c, m)
      ensures m.namespace in s'.namespaceClients && c in s'.namespaceClients[m.namespace]
    {
    }
  }

  lemma DisconnectIsStructural(s: State, client: string)
    requires Structural(s)
    ensures Structural(Disconnected(s, client))
  {
    if s.namespaceOrder != [] {
      var s' := Disconnected(s, client);
      var gone := Emptied(s.namespaceClients, s.namespaceOrder, client);
      KeepingKeepsNoDup(s.namespaceOrder, gone);
      forall ns | ns in s'.namespaceClients
        ensures s'.namespaceClients[ns] != [] && NoDup(s'.namespaceClients[ns])
      {
        WithoutKeepsNoDup(s.namespaceClients[ns], client);
      }
      forall c, m | InFlight(s'.awaitingAck, c, m)
        ensures m.namespace in s'.namespaceClients && c in s'.namespaceClients[m.namespace]
      {
        assert InFlight(s.awaitingAck, c, m) && c != client;
        assert c in Without(s.namespaceClients[m.namespace], client);
      }
      assert s'.sockets.Keys == s'.namespaceClients.Keys;
    }
  }

  lemma DeliverIsStructural(s: State, id: string, selected: nat)
    requires Structural(s) && Enabled(s, Deliver(id, selected))
    ensures Structural(Delivered(s, id, selected))
  {
    var s' := Delivered(s, id, selected);
    forall c, m | InFlight(s'.awaitingAck, c, m)
      ensures m.namespace in s'.namespaceClients && c in s'.namespaceClients[m.namespace]
    {
      if !InFlight(s.awaitingAck, c, m) {
        assert m == MessageOf(s.queue[0], id);
      }
    }
  }

  lemma AckIsStructural(s: State, client: string, messageId: Option<string>)
    requires Structural(s)
    ensures Structural(Acked(s, client, messageId))
  {
    var s' := Acked(s, client, messageId);
    assert forall c, m :: InFlight(s'.awaitingAck, c, m) ==> InFlight(s.awaitingAck, c, m);
  }

  lemma ResumeIsStructural(s: State, client: string, ns: string)
    requires Structural(s)
    ensures Structural(Resumed(s, client, ns))
  {
    JoinIsStructural(s.(starting := s.starting - multiset{(client, ns)},
                        socketCount := s.socketCount + 1),
                     client, ns, s.socketCount);
  }

  /** The shape depends on four fields only. */
  lemma ShapeDecides(s: State, s': State)
    requires s'.namespaceOrder == s.namespaceOrder && s'.namespaceClients == s.namespaceClients
    requires s'.sockets == s.sockets && s'.awaitingAck == s.awaitingAck
    ensures Structural(s) <==> Structural(s')
  {
  }

  lemma StartIsStructural(s: State, client: string, ns: string)
    requires Structural(s)
    ensures Structural(Started(s, client, ns))
  {
    hide Join, Structural;
    if s.configured && ns in s.sockets {
      assert s.sockets[ns := s.sockets[ns]] == s.sockets;
      JoinIsStructural(s, client, ns, s.sockets[ns]);
    } else {
      ShapeDecides(s, Started(s, client, ns));
    }
  }

  lemma ConnectIsStructural(s: State, client: string)
    requires Structural(s)
    ensures Structural(Connected(s, client))
  {
    var s' := Connected(s, client);
    assert forall c, m :: InFlight(s'.awaitingAck, c, m) ==> InFlight(s.awaitingAck, c, m);
  }

  lemma StepIsStructural(s: State, step: Step)
    requires Structural(s) && Enabled(s, step)
    ensures Structural(Next(s, step))
  {
    match step
    case Connect(client) => ConnectIsStructural(s, client);
    case Start(client, ns) => StartIsStructural(s, client, ns);
    case StartConnected(client, ns) => ResumeIsStructural(s, client, ns);
    case ClientAck(client, messageId) => AckIsStructural(s, client, messageId);
    case Deliver(id, selected) => DeliverIsStructural(s, id, selected);
    case Disconnect(client) => DisconnectIsStructural(s, client);
    case StartFailed(_, _) =>
    case BatchArrives(_, _) =>
    case Lookup(_) =>
    case Settle(_, _) =>
  }

  // ---- lifecycle invariant, step by step ----

  /** Giving a message with a new id to one more holder. */
  lemma FreshMessageHeldOnce(awaiting: map<string, seq<BatchMessage>>, ids: set<string>, processed: seq<Processed>,
                             client: string, m: BatchMessage)
    requires HeldOnce(awaiting) && WereSent(awaiting, ids, processed) && m.id !in ids && client in awaiting
    ensures HeldOnce(awaiting[client := awaiting[client] + [m]])
  {
    var awaiting' := awaiting[client := awaiting[client] + [m]];
    forall x | x in awaiting[client] ensures x.id != m.id {
      assert InFlight(awaiting, client, x);
    }
    Snoc(awaiting[client], m);
    assert forall c, x :: InFlight(awaiting', c, x) <==> InFlight(awaiting, c, x) || (c == client && x == m);
  }

  lemma FreshMessageSent(awaiting: map<string, seq<BatchMessage>>, ids: set<string>, processed: seq<Processed>,
                         client: string, m: BatchMessage)
    requires WereSent(awaiting, ids, processed) && client in awaiting
    ensures WereSent(awaiting[client := awaiting[client] + [m]], ids + {m.id}, processed + [Sent(m, Some(client))])
  {
    var awaiting' := awaiting[client := awaiting[client] + [m]];
    assert forall c, x :: InFlight(awaiting', c, x) <==> InFlight(awaiting, c, x) || (c == client && x == m);
    assert forall p :: p in processed ==> p in processed + [Sent(m, Some(client))];
  }

  lemma MoreSent(calls: seq<UpstreamCall>, awaiting: map<string, seq<BatchMessage>>, ids: set<string>,
                 processed: seq<Processed>, id: string, p: Processed)
    requires AnsweredOnce(calls, awaiting, ids, processed)
    ensures AnsweredOnce(calls, awaiting, ids + {id}, processed + [p])
    ensures WereSent(awaiting, ids, processed) ==> WereSent(awaiting, ids + {id}, processed + [p])
  {
    assert forall q :: q in processed ==> q in processed + [p];
  }

  lemma FreshMessageUnanswered(calls: seq<UpstreamCall>, awaiting: map<string, seq<BatchMessage>>, ids: set<string>,
                               processed: seq<Processed>, client: string, m: BatchMessage)
    requires AnsweredOnce(calls, awaiting, ids, processed) && m.id !in ids && client in awaiting
    ensures AnsweredOnce(calls, awaiting[client := awaiting[client] + [m]], ids, processed)
  {
    var awaiting' := awaiting[client := awaiting[client] + [m]];
    assert forall c, x :: InFlight(awaiting', c, x) <==> InFlight(awaiting, c, x) || (c == client && x == m);
  }

  lemma DeliverKeepsLifecycle(s: State, id: string, selected: nat)
    requires Lifecycle(s) && Enabled(s, Deliver(id, selected))
    ensures Lifecycle(Delivered(s, id, selected))
  {
    hide HeldOnce, WereSent, AnsweredOnce;
    var m := MessageOf(s.queue[0], id);
    if m.namespace in s.namespaceClients {
      var client := s.namespaceClients[m.namespace][selected];
      var awaiting := s.awaitingAck;
      if client in s.awaitingAck {
        FreshMessageHeldOnce(s.awaitingAck, s.usedIds, s.processed, client, m);
        FreshMessageSent(s.awaitingAck, s.usedIds, s.processed, client, m);
        FreshMessageUnanswered(s.upstream, s.awaitingAck, s.usedIds, s.processed, client, m);
        awaiting := s.awaitingAck[client := s.awaitingAck[client] + [m]];
      }
      MoreSent(s.upstream, awaiting, s.usedIds, s.processed, id, Sent(m, Some(client)));
    } else {
      MoreSent(s.upstream, s.awaitingAck, s.usedIds, s.processed, id, Sent(m, None));
    }
  }

  /** Taking the messages with one id off one list. */
  lemma ShrunkFlight(awaiting: map<string, seq<BatchMessage>>, ids: set<string>, processed: seq<Processed>,
                     client: string, id: string)
    requires HeldOnce(awaiting) && WereSent(awaiting, ids, processed) && client in awaiting
    ensures var awaiting' := awaiting[client := WithoutId(awaiting[client], id)];
            HeldOnce(awaiting') && WereSent(awaiting', ids, processed)
  {
    var awaiting' := awaiting[client := WithoutId(awaiting[client], id)];
    SublistKeepsIds(awaiting[client], "", id);
    assert forall c, x :: InFlight(awaiting', c, x) ==> InFlight(awaiting, c, x);
  }

  lemma ShrunkUnanswered(calls: seq<UpstreamCall>, awaiting: map<string, seq<BatchMessage>>, ids: set<string>,
                         processed: seq<Processed>, client: string, id: string)
    requires AnsweredOnce(calls, awaiting, ids, processed) && client in awaiting
    ensures AnsweredOnce(calls, awaiting[client := WithoutId(awaiting[client], id)], ids, processed)
  {
    var awaiting' := awaiting[client := WithoutId(awaiting[client], id)];
    assert forall c, x :: InFlight(awaiting', c, x) ==> InFlight(awaiting, c, x);
  }

  lemma AnsweredMore(calls: seq<UpstreamCall>, awaiting: map<string, seq<BatchMessage>>, ids: set<string>,
                     processed: seq<Processed>, client: string, m: BatchMessage, socket: nat)
    requires AnsweredOnce(calls, awaiting, ids, processed) && HeldOnce(awaiting) && WereSent(awaiting, ids, processed)
    requires InFlight(awaiting, client, m)
    ensures AnsweredOnce(calls + [Ack(socket, client, m)], awaiting[client := WithoutId(awaiting[client], m.id)],
                         ids, processed)
  {
    var awaiting' := awaiting[client := WithoutId(awaiting[client], m.id)];
    forall c, x | InFlight(awaiting', c, x) ensures InFlight(awaiting, c, x) && x.id != m.id {
      if c == client {
        assert x in WithoutId(awaiting[client], m.id);
      } else {
        assert InFlight(awaiting, c, x);
      }
    }
  }

  lemma AckKeepsLifecycle(s: State, client: string, messageId: Option<string>)
    requires Lifecycle(s)
    ensures Lifecycle(Acked(s, client, messageId))
  {
    if messageId.Some? && client in s.awaitingAck {
      var inflight := FindId(s.awaitingAck[client], messageId.value);
      if inflight.Some? {
        var m := inflight.value;
        assert InFlight(s.awaitingAck, client, m);
        hide HeldOnce, WereSent, AnsweredOnce, InFlight, WithoutId;
        ShrunkFlight(s.awaitingAck, s.usedIds, s.processed, client, m.id);
        ShrunkUnanswered(s.upstream, s.awaitingAck, s.usedIds, s.processed, client, m.id);
        if m.namespace in s.sockets {
          AnsweredMore(s.upstream, s.awaitingAck, s.usedIds, s.processed, client, m, s.sockets[m.namespace]);
        }
        assert s.upstream + [] == s.upstream;
      }
    }
  }

  /** Nacking messages that one client holds, each once, and taking that client's list away. */
  lemma NacksAnswerOnce(s: State, client: string, nacked: seq<BatchMessage>, calls: seq<UpstreamCall>)
    requires Lifecycle(s) && DistinctIds(nacked)
    requires forall m :: m in nacked ==> InFlight(s.awaitingAck, client, m)
    requires |calls| <= |nacked|
    requires forall i :: 0 <= i < |calls| ==>
      calls[i].Nack? && calls[i].client == client && calls[i].message == nacked[i]
    ensures AnsweredOnce(s.upstream + calls, s.awaitingAck - {client}, s.usedIds, s.processed)
  {
    var all, awaiting := s.upstream + calls, s.awaitingAck - {client};
    forall c, m | InFlight(awaiting, c, m) ensures c != client && InFlight(s.awaitingAck, c, m) {}
    assert forall i :: |s.upstream| <= i < |all| ==>
      all[i] == calls[i - |s.upstream|] && nacked[i - |s.upstream|] in nacked;
  }

  lemma ClosesAnswerNothing(calls: seq<UpstreamCall>, closes: seq<UpstreamCall>,
                            awaiting: map<string, seq<BatchMessage>>, ids: set<string>, processed: seq<Processed>)
    requires AnsweredOnce(calls, awaiting, ids, processed)
    requires forall call :: call in closes ==> call.Close?
    ensures AnsweredOnce(calls + closes, awaiting, ids, processed)
  {
    forall i | |calls| <= i < |calls + closes| ensures !Answers((calls + closes)[i]) {
      assert (calls + closes)[i] in closes;
    }
  }

  lemma DisconnectKeepsLifecycle(s: State, client: string)
    requires Lifecycle(s)
    ensures Lifecycle(Disconnected(s, client))
  {
    if s.namespaceOrder != [] {
      var s' := Disconnected(s, client);
      var nacked := OfNamespace(Awaiting(s, client), s.namespaceOrder[0]);
      SublistKeepsIds(Awaiting(s, client), s.namespaceOrder[0], "");
      var nacks := NackCalls(s.sockets, s.namespaceOrder[0], client, nacked);
      NacksAnswerOnce(s, client, nacked, nacks);
      ClosesAnswerNothing(s.upstream + nacks,
                          CloseCalls(s.sockets, Emptied(s.namespaceClients, s.namespaceOrder, client)),
                          s'.awaitingAck, s.usedIds, s.processed);
      assert forall c, m :: InFlight(s'.awaitingAck, c, m) ==> InFlight(s.awaitingAck, c, m);
    }
  }

  lemma LookupKeepsLifecycle(s: State, answer: Option<string>)
    requires Lifecycle(s) && Enabled(s, Lookup(answer))
    ensures Lifecycle(LookedUp(s, answer))
  {
    assert forall p :: p in s.processed ==> p in LookedUp(s, answer).processed;
  }

  lemma ConnectKeepsLifecycle(s: State, client: string)
    requires Lifecycle(s)
    ensures Lifecycle(Connected(s, client))
  {
    var s' := Connected(s, client);
    assert forall c, m :: InFlight(s'.awaitingAck, c, m) <==> InFlight(s.awaitingAck, c, m);
  }

  lemma StepKeepsLifecycle(s: State, step: Step)
    requires Lifecycle(s) && Enabled(s, step)
    ensures Lifecycle(Next(s, step))
  {
    match step
    case Connect(client) => ConnectKeepsLifecycle(s, client);
    case Lookup(answer) => LookupKeepsLifecycle(s, answer);
    case Deliver(id, selected) => DeliverKeepsLifecycle(s, id, selected);
    case ClientAck(client, messageId) => AckKeepsLifecycle(s, client, messageId);
    case Disconnect(client) => DisconnectKeepsLifecycle(s, client);
    case Start(_, _) =>
    case StartConnected(_, _) =>
    case StartFailed(_, _) =>
    case BatchArrives(_, _) =>
    case Settle(_, _) =>
  }

  lemma InitHolds(configured: bool, listeners: nat)
    ensures Structural(Init(configured, listeners)) && Lifecycle(Init(configured, listeners))
  {
  }

  /** Both invariants hold in every state of every run. */
  lemma {:induction false} EveryRun(trace: seq<State>, steps: seq<Step>, i: nat)
    requires IsRun(trace, steps) && i < |trace|
    ensures Structural(trace[i]) && Lifecycle(trace[i])
  {
    hide Next, Enabled, Structural, Lifecycle;
    if i == 0 {
      InitHolds(trace[0].configured, trace[0].listeners);
    } else {
      EveryRun(trace, steps, i - 1);
      RunStep(trace, steps, i - 1);
      StepIsStructural(trace[i - 1], steps[i - 1]);
      StepKeepsLifecycle(trace[i - 1], steps[i - 1]);
    }
  }
}
