/**
 * The proxy as the object it is: fields that the handlers update in place, and loops over clients,
 * namespaces and handlers. `View` is the state of the machine the object is in; every method does the
 * step of the machine it is named after.
 */
module ProxyClass {
  import opened Wrappers
  import opened ProxyMachine
  import opened ProxyInvariants

  lemma {:induction false} WithoutAbsent<T(!new)>(xs: seq<T>, x: T)
    requires x !in xs
    ensures Without(xs, x) == xs
  {
    if xs != [] {
      WithoutAbsent(xs[..|xs| - 1], x);
    }
  }

  lemma {:induction false} WithoutMiddle<T(!new)>(a: seq<T>, x: T, b: seq<T>)
    requires x !in a && x !in b
    ensures Without(a + [x] + b, x) == a + b
  {
    if b == [] {
      WithoutAbsent(a, x);
      assert (a + [x] + b)[..|a|] == a;
      assert a + b == a;
    } else {
      var b' := b[..|b| - 1];
      WithoutMiddle(a, x, b');
      assert (a + [x] + b)[..|a + [x] + b| - 1] == a + [x] + b';
      assert b[|b| - 1] in b;
      assert a + b == a + b' + [b[|b| - 1]];
    }
  }

  lemma {:induction false} KeepingFrame(order: seq<string>, gone: seq<string>, ns: string)
    requires ns !in order
    ensures Keeping(order, gone + [ns]) == Keeping(order, gone)
  {
    if order != [] {
      KeepingFrame(order[..|order| - 1], gone, ns);
      assert order[|order| - 1] in order;
    }
  }

  lemma DeliveredFields(s: State, id: string, selected: nat, v: State)
    requires s.queue != []
    requires v == s.(queue := s.queue[1..], usedIds := s.usedIds + {id}, processed := v.processed,
                     awaitingAck := v.awaitingAck)
    requires MessageOf(s.queue[0], id).namespace !in s.namespaceClients ==>
      v.processed == s.processed + [Sent(MessageOf(s.queue[0], id), None)] && v.awaitingAck == s.awaitingAck
    requires MessageOf(s.queue[0], id).namespace in s.namespaceClients ==>
      var message := MessageOf(s.queue[0], id);
      && selected < |s.namespaceClients[message.namespace]|
      && var client := s.namespaceClients[message.namespace][selected];
      && v.processed == s.processed + [Sent(message, Some(client))]
      && v.awaitingAck == if client in s.awaitingAck
                          then s.awaitingAck[client := s.awaitingAck[client] + [message]]
                          else s.awaitingAck
    ensures v == Delivered(s, id, selected)
  {
  }

  lemma ResumedFields(s: State, client: string, ns: string, v: State)
    requires v == s.(namespaceOrder := v.namespaceOrder, namespaceClients := v.namespaceClients,
                     starting := v.starting, sockets := v.sockets, socketCount := v.socketCount)
    requires v.namespaceOrder == OrderWith(s.namespaceOrder, s.namespaceClients, ns)
    requires v.namespaceClients == ClientsWith(s.namespaceClients, ns, client)
    requires v.starting == s.starting - multiset{(client, ns)}
    requires v.sockets == s.sockets[ns := s.socketCount]
    requires v.socketCount == s.socketCount + 1
    ensures v == Resumed(s, client, ns)
  {
  }

  class EventStreamProxy {
    const configured: bool
    const listeners: nat
    var namespaceOrder: seq<string>
    var namespaceClients: map<string, seq<string>>
    var sockets: map<string, nat>
    var awaitingAck: map<string, seq<BatchMessage>>
    var subscriptionNames: map<string, string>
    var queue: seq<Task>

    ghost var connected: set<string>
    ghost var seen: set<string>
    ghost var starting: multiset<(string, string)>
    var socketCount: nat
    ghost var usedIds: set<string>
    ghost var arrived: seq<Arrival>
    ghost var processed: seq<Processed>
    ghost var upstream: seq<UpstreamCall>

    ghost function View(): State
      reads this
    {
      State(configured, listeners, namespaceOrder, namespaceClients, sockets, awaitingAck, subscriptionNames,
            queue, connected, seen, starting, socketCount, usedIds, arrived, processed, upstream)
    }

    constructor (configured: bool, listeners: nat)
      ensures View() == Init(configured, listeners)
    {
      this.configured, this.listeners := configured, listeners;
      namespaceOrder, namespaceClients, sockets := [], map[], map[];
      awaitingAck, subscriptionNames, queue := map[], map[], [];
      connected, seen, starting, socketCount := {}, {}, multiset{}, 0;
      usedIds, arrived, processed, upstream := {}, [], [], [];
    }

    method HandleConnection(client: string)
      modifies this
      ensures View() == Connected(old(View()), client)
    {
      connected, seen := connected + {client}, seen + {client};
      if client !in awaitingAck {
        awaitingAck := awaitingAck[client := []];
      }
    }

    method AddClient(client: string, namespace: string)
      modifies this`namespaceOrder, this`namespaceClients
      ensures namespaceOrder == OrderWith(old(namespaceOrder), old(namespaceClients), namespace)
      ensures namespaceClients == ClientsWith(old(namespaceClients), namespace, client)
    {
      var clientSet := [];
      if namespace in namespaceClients {
        clientSet := namespaceClients[namespace];
      } else {
        namespaceOrder := namespaceOrder + [namespace];
      }
      if client !in clientSet {
        clientSet := clientSet + [client];
      }
      namespaceClients := namespaceClients[namespace := clientSet];
    }

    /** startListening; `waits` when it has suspended on connecting the socket. */
    method StartListening(client: string, namespace: string) returns (waits: bool)
      modifies this
      ensures View() == Started(old(View()), client, namespace)
      ensures waits <==> configured && namespace !in old(sockets)
    {
      waits := false;
      if !configured {
        return;
      }
      if namespace !in sockets {
        starting := starting + multiset{(client, namespace)};
        waits := true;
      } else {
        AddClient(client, namespace);
      }
    }

    /** The new socket is stored without looking whether one is there. */
    method StoreSocket(namespace: string)
      modifies this`sockets, this`socketCount
      ensures sockets == old(sockets)[namespace := old(socketCount)]
      ensures socketCount == old(socketCount) + 1
    {
      sockets := sockets[namespace := socketCount];
      socketCount := socketCount + 1;
    }

    ghost method ForgetStart(client: string, namespace: string)
      modifies this`starting
      ensures starting == old(starting) - multiset{(client, namespace)}
    {
      starting := starting - multiset{(client, namespace)};
    }

    method ResumeListening(client: string, namespace: string)
      requires (client, namespace) in starting
      modifies this`starting, this`sockets, this`socketCount,
               this`namespaceOrder, this`namespaceClients
      ensures View() == Resumed(old(View()), client, namespace)
    {
      hide Resumed, OrderWith, ClientsWith;
      ghost var s := View();
      StoreSocket(namespace);
      AddClient(client, namespace);
      ForgetStart(client, namespace);
      ResumedFields(s, client, namespace, View());
    }

    method OnEvents(namespace: string, batch: EventBatch)
      modifies this
      ensures View() == Enqueued(old(View()), namespace, batch)
    {
      queue := queue + [Task(Arrival(namespace, batch), [], [])];
      arrived := arrived + [Arrival(namespace, batch)];
    }

    method GetSubscriptionName(subId: string, answer: Option<string>) returns (name: Option<string>)
      modifies this`subscriptionNames
      ensures name == SubscriptionName(old(subscriptionNames), subId, answer)
      ensures subscriptionNames == if name.Some? then old(subscriptionNames)[subId := name.value] else old(subscriptionNames)
    {
      if subId in subscriptionNames {
        return Some(subscriptionNames[subId]);
      }
      name := answer;
      if name.Some? {
        subscriptionNames := subscriptionNames[subId := name.value];
      }
    }

    method CallListeners(before: seq<Handler>, subName: string, event: Event) returns (handlers: seq<Handler>)
      ensures handlers == before + Called(listeners, subName, event)
    {
      handlers := before;
      ghost var all := Called(listeners, subName, event);
      for j := 0 to listeners
        invariant handlers == before + all[..j]
      {
        handlers := handlers + [Handler(j, subName, event, None)];
        assert all[..j + 1] == all[..j] + [all[j]];
      }
      assert all[..listeners] == all;
    }

    method ResolveNext(answer: Option<string>)
      requires queue != [] && |queue[0].resolved| < |queue[0].arrival.batch.events|
      modifies this`queue, this`processed, this`subscriptionNames
      ensures View() == LookedUp(old(View()), answer)
    {
      var task := queue[0];
      var event := task.arrival.batch.events[|task.resolved|];
      var name := GetSubscriptionName(event.subId, answer);
      if name.None? {
        queue, processed := queue[1..], processed + [Aborted];
        return;
      }
      var handlers := CallListeners(task.handlers, name.value, event);
      queue := [Task(task.arrival, task.resolved + [name.value], handlers)] + queue[1..];
    }

    method CollectMessages(handlers: seq<Handler>) returns (messages: seq<WebSocketMessage>)
      ensures messages == Collect(handlers)
    {
      messages := [];
      for k := 0 to |handlers|
        invariant messages == Collect(handlers[..k])
      {
        assert handlers[..k + 1][..k] == handlers[..k];
        if handlers[k].outcome.Some? && handlers[k].outcome.value.Returned? {
          messages := messages + [handlers[k].outcome.value.message];
        }
      }
      assert handlers[..|handlers|] == handlers;
    }

    /** The rest of processEvents once every promise has settled, with the send it ends in. */
    method FinishBatch(id: string, selected: nat)
      requires queue != []
      requires queue[0].arrival.namespace in namespaceClients
        ==> selected < |namespaceClients[queue[0].arrival.namespace]|
      modifies this`queue, this`usedIds, this`awaitingAck, this`processed
      ensures View() == Delivered(old(View()), id, selected)
    {
      var task := queue[0];
      var messages := CollectMessages(task.handlers);
      ghost var s := View();
      hide Collect, Delivered;
      queue, usedIds := queue[1..], usedIds + {id};
      Send(BatchMessage(task.arrival.namespace, id, messages, task.arrival.batch.batchNumber), selected);
      DeliveredFields(s, id, selected, View());
    }

    method Send(message: BatchMessage, selected: nat)
      requires message.namespace in namespaceClients ==> selected < |namespaceClients[message.namespace]|
      modifies this`awaitingAck, this`processed
      ensures message.namespace !in namespaceClients ==>
        processed == old(processed) + [Sent(message, None)] && awaitingAck == old(awaitingAck)
      ensures message.namespace in namespaceClients ==>
        var client := namespaceClients[message.namespace][selected];
        && processed == old(processed) + [Sent(message, Some(client))]
        && awaitingAck == if client in old(awaitingAck)
                          then old(awaitingAck)[client := old(awaitingAck)[client] + [message]]
                          else old(awaitingAck)
    {
      if message.namespace in namespaceClients {
        var clients := namespaceClients[message.namespace];
        for i := 0 to |clients|
          invariant i <= selected
          invariant processed == old(processed) && awaitingAck == old(awaitingAck)
        {
          if i == selected {
            var client := clients[i];
            if client in awaitingAck {
              awaitingAck := awaitingAck[client := awaitingAck[client] + [message]];
            }
            processed := processed + [Sent(message, Some(client))];
            return;
          }
        }
      } else {
        processed := processed + [Sent(message, None)];
      }
    }

    method HandleAck(client: string, messageId: Option<string>)
      modifies this
      ensures View() == Acked(old(View()), client, messageId)
    {
      if messageId.None? || client !in awaitingAck {
        return;
      }
      var inflight := FindId(awaitingAck[client], messageId.value);
      if inflight.Some? {
        var left := WithoutId(awaitingAck[client], messageId.value);
        awaitingAck := awaitingAck[client := left];
        if left == [] && inflight.value.namespace in sockets {
          upstream := upstream + [Ack(sockets[inflight.value.namespace], client, inflight.value)];
        }
      }
    }

    method NackInFlight(client: string, namespace: string)
      modifies this`upstream
      ensures upstream == old(upstream)
        + NackCalls(sockets, namespace, client, OfNamespace(Awaiting(View(), client), namespace))
    {
      if client in awaitingAck {
        var msgs := awaitingAck[client];
        for j := 0 to |msgs|
          invariant upstream == old(upstream)
            + NackCalls(sockets, namespace, client, OfNamespace(msgs[..j], namespace))
        {
          assert msgs[..j + 1][..j] == msgs[..j];
          if msgs[j].namespace == namespace && namespace in sockets {
            upstream := upstream + [Nack(sockets[namespace], client, msgs[j])];
          }
        }
        assert msgs[..|msgs|] == msgs;
      }
    }

    /** One turn of the loop of handleDisconnect. */
    method LeaveNamespace(client: string, namespace: string)
      requires namespace in namespaceClients
      modifies this`namespaceOrder, this`namespaceClients, this`sockets,
               this`awaitingAck, this`upstream
      ensures View() == Turn(old(View()), client, namespace)
    {
      hide Without, Turn, NackCalls, OfNamespace;
      ghost var v := View();
      var clientSet := TakeOut(client, namespace);
      if clientSet == [] {
        LastTurn(v, client, namespace);
        CloseNamespace(namespace);
      } else {
        EarlierTurn(v, client, namespace);
      }
    }

    /** The client leaves the set, and what it still holds of the namespace is nacked. */
    method TakeOut(client: string, namespace: string) returns (clientSet: seq<string>)
      requires namespace in namespaceClients
      modifies this`namespaceClients, this`awaitingAck, this`upstream
      ensures clientSet == Without(old(namespaceClients)[namespace], client)
      ensures namespaceClients == old(namespaceClients)[namespace := clientSet]
      ensures awaitingAck == old(awaitingAck) - {client}
      ensures upstream == old(upstream)
        + NackCalls(sockets, namespace, client, OfNamespace(Awaiting(old(View()), client), namespace))
    {
      clientSet := Without(namespaceClients[namespace], client);
      namespaceClients := namespaceClients[namespace := clientSet];
      NackInFlight(client, namespace);
      awaitingAck := awaitingAck - {client};
    }

    method CloseNamespace(namespace: string)
      modifies this`namespaceOrder, this`namespaceClients, this`sockets, this`upstream
      ensures namespaceOrder == Without(old(namespaceOrder), namespace)
      ensures namespaceClients == old(namespaceClients) - {namespace}
      ensures sockets == old(sockets) - {namespace}
      ensures upstream == old(upstream) + (if namespace in old(sockets) then [Close(old(sockets)[namespace])] else [])
    {
      if namespace in sockets {
        upstream := upstream + [Close(sockets[namespace])];
      }
      sockets := sockets - {namespace};
      namespaceClients := namespaceClients - {namespace};
      namespaceOrder := Without(namespaceOrder, namespace);
    }

    method HandleDisconnect(client: string)
      requires Structural(View())
      modifies this`connected, this`namespaceOrder, this`namespaceClients, this`sockets,
               this`awaitingAck, this`upstream
      ensures View() == Disconnected(old(View()), client)
    {
      ghost var s := View();
      connected := connected - {client};
      var order := namespaceOrder;
      hide Structural, UpTo, Disconnected;
      NoTurns(s, client);
      AllTurns(s, client);
      DisconnectTurns(client, order, s);
    }

    method DisconnectTurns(client: string, order: seq<string>, ghost s: State)
      requires Structural(s) && order == s.namespaceOrder && View() == UpTo(s, client, [], order)
      modifies this`namespaceOrder, this`namespaceClients, this`sockets,
               this`awaitingAck, this`upstream
      ensures View() == UpTo(s, client, order, [])
    {
      hide Structural, UpTo, Turn;
      Ends(order);
      for i := 0 to |order|
        invariant View() == UpTo(s, client, order[..i], order[i..])
      {
        SplitAt(s, i);
        NextTurn(s, client, order[..i], order[i], order[i + 1..]);
        LeaveNamespace(client, order[i]);
      }
    }
  }

  /** The effect of one turn of the disconnect loop on the state. */
  function Turn(v: State, client: string, ns: string): State
    requires ns in v.namespaceClients
  {
    var left := Without(v.namespaceClients[ns], client);
    var nacks := NackCalls(v.sockets, ns, client, OfNamespace(Awaiting(v, client), ns));
    var last := left == [];
    v.(namespaceOrder := if last then Without(v.namespaceOrder, ns) else v.namespaceOrder,
       namespaceClients := if last then v.namespaceClients - {ns} else v.namespaceClients[ns := left],
       sockets := if last then v.sockets - {ns} else v.sockets,
       awaitingAck := v.awaitingAck - {client},
       upstream := v.upstream + nacks + (if last && ns in v.sockets then [Close(v.sockets[ns])] else []))
  }

  lemma LastTurn(v: State, client: string, ns: string)
    requires ns in v.namespaceClients && Without(v.namespaceClients[ns], client) == []
    ensures Turn(v, client, ns)
         == v.(namespaceOrder := Without(v.namespaceOrder, ns), namespaceClients := v.namespaceClients - {ns},
               sockets := v.sockets - {ns},
               awaitingAck := v.awaitingAck - {client},
               upstream := v.upstream + NackCalls(v.sockets, ns, client, OfNamespace(Awaiting(v, client), ns))
                         + (if ns in v.sockets then [Close(v.sockets[ns])] else []))
    ensures v.namespaceClients[ns := []] - {ns} == v.namespaceClients - {ns}
  {
  }

  lemma EarlierTurn(v: State, client: string, ns: string)
    requires ns in v.namespaceClients && Without(v.namespaceClients[ns], client) != []
    ensures Turn(v, client, ns)
         == v.(namespaceClients := v.namespaceClients[ns := Without(v.namespaceClients[ns], client)],
               awaitingAck := v.awaitingAck - {client},
               upstream := v.upstream + NackCalls(v.sockets, ns, client, OfNamespace(Awaiting(v, client), ns)))
  {
    var said := v.upstream + NackCalls(v.sockets, ns, client, OfNamespace(Awaiting(v, client), ns));
    assert said + [] == said;
  }

  /** The state when the turns for `done` are over and those for `rest` are to come. */
  ghost function UpTo(s: State, client: string, done: seq<string>, rest: seq<string>): State {
    var gone := Emptied(s.namespaceClients, done, client);
    s.(connected := s.connected - {client},
       namespaceOrder := Keeping(done, gone) + rest,
       namespaceClients := ClientsLeft(s.namespaceClients, done, gone, client),
       sockets := SocketsLeft(s.sockets, gone),
       awaitingAck := if done == [] then s.awaitingAck else s.awaitingAck - {client},
       upstream := s.upstream + FirstNacks(s, client, done) + CloseCalls(s.sockets, gone))
  }

  ghost function FirstNacks(s: State, client: string, done: seq<string>): seq<UpstreamCall> {
    if done == [] then [] else NackCalls(s.sockets, done[0], client, OfNamespace(Awaiting(s, client), done[0]))
  }

  lemma NoTurns(s: State, client: string)
    ensures UpTo(s, client, [], s.namespaceOrder) == s.(connected := s.connected - {client})
  {
    assert Emptied(s.namespaceClients, [], client) == [] && Keeping([], []) == [] && CloseCalls(s.sockets, []) == [];
    assert ClientsLeft(s.namespaceClients, [], [], client) == s.namespaceClients;
    assert SocketsLeft(s.sockets, []) == s.sockets;
    assert [] + s.namespaceOrder == s.namespaceOrder && s.upstream + [] + [] == s.upstream;
  }

  lemma AllTurns(s: State, client: string)
    ensures UpTo(s, client, s.namespaceOrder, []) == Disconnected(s, client)
  {
    NoTurns(s, client);
    hide Emptied, Keeping, CloseCalls, NackCalls, OfNamespace, ClientsLeft, SocketsLeft;
    var gone := Emptied(s.namespaceClients, s.namespaceOrder, client);
    assert Keeping(s.namespaceOrder, gone) + [] == Keeping(s.namespaceOrder, gone);
  }

  lemma EmptiedSnoc(clients: map<string, seq<string>>, done: seq<string>, ns: string, client: string)
    ensures Emptied(clients, done + [ns], client)
         == Emptied(clients, done, client)
          + if ns in clients && Without(clients[ns], client) == [] then [ns] else []
  {
    assert (done + [ns])[..|done|] == done;
  }

  lemma KeepingSnoc(xs: seq<string>, x: string, gone: seq<string>)
    ensures Keeping(xs + [x], gone) == Keeping(xs, gone) + if x in gone then [] else [x]
  {
    assert (xs + [x])[..|xs|] == xs;
  }

  lemma Assoc<T>(a: seq<T>, b: seq<T>, c: seq<T>)
    ensures a + (b + c) == a + b + c
  {
  }

  lemma OrderKept(done: seq<string>, ns: string, rest: seq<string>, gone: seq<string>)
    requires ns !in gone
    ensures Keeping(done + [ns], gone) + rest == Keeping(done, gone) + ([ns] + rest)
  {
    KeepingSnoc(done, ns, gone);
    Assoc(Keeping(done, gone), [ns], rest);
  }

  lemma OrderGone(done: seq<string>, ns: string, rest: seq<string>, gone: seq<string>)
    requires ns !in done && ns !in rest
    ensures Keeping(done + [ns], gone + [ns]) + rest == Without(Keeping(done, gone) + ([ns] + rest), ns)
  {
    KeepingSnoc(done, ns, gone + [ns]);
    KeepingFrame(done, gone, ns);
    var kept := Keeping(done, gone);
    assert kept + [] == kept;
    WithoutMiddle(kept, ns, rest);
    Assoc(kept, [ns], rest);
  }

  lemma ClientsTurn(clients: map<string, seq<string>>, done: seq<string>, ns: string, gone: seq<string>, client: string)
    requires ns !in done && ns in clients && ns !in gone
    ensures var before := ClientsLeft(clients, done, gone, client);
            && ns in before && before[ns] == clients[ns]
            && ClientsLeft(clients, done + [ns], gone, client) == before[ns := Without(clients[ns], client)]
            && ClientsLeft(clients, done + [ns], gone + [ns], client) == before - {ns}
  {
  }

  lemma SocketsTurn(s: State, gone: seq<string>, ns: string)
    requires ns !in gone
    ensures SocketsLeft(s.sockets, gone + [ns]) == SocketsLeft(s.sockets, gone) - {ns}
    ensures ns in SocketsLeft(s.sockets, gone) <==> ns in s.sockets
    ensures ns in s.sockets ==> SocketsLeft(s.sockets, gone)[ns] == s.sockets[ns]
    ensures CloseCalls(s.sockets, gone + [ns])
         == CloseCalls(s.sockets, gone) + (if ns in s.sockets then [Close(s.sockets[ns])] else [])
  {
    assert (gone + [ns])[..|gone|] == gone;
  }

  /** Only the first turn finds messages to nack. */
  lemma NacksTurn(s: State, client: string, done: seq<string>, ns: string, v: State)
    requires v.sockets == SocketsLeft(s.sockets, Emptied(s.namespaceClients, done, client))
    requires v.awaitingAck == if done == [] then s.awaitingAck else s.awaitingAck - {client}
    ensures var nacks := NackCalls(v.sockets, ns, client, OfNamespace(Awaiting(v, client), ns));
            if done == [] then nacks == FirstNacks(s, client, [ns])
            else nacks == [] && FirstNacks(s, client, done + [ns]) == FirstNacks(s, client, done)
  {
    if done == [] {
      assert Emptied(s.namespaceClients, [], client) == [];
      assert SocketsLeft(s.sockets, []) == s.sockets;
    } else {
      assert OfNamespace([], ns) == [];
      assert (done + [ns])[0] == done[0];
    }
  }

  lemma UpstreamTurn(said: seq<UpstreamCall>, nacks: seq<UpstreamCall>, closes: seq<UpstreamCall>,
                     more: seq<UpstreamCall>, close: seq<UpstreamCall>, nacks': seq<UpstreamCall>)
    requires (more == [] && nacks' == nacks) || (nacks == [] && closes == [] && nacks' == more)
    ensures said + nacks + closes + more + close == said + nacks' + (closes + close)
  {
  }

  lemma NextUpstream(s: State, client: string, done: seq<string>, ns: string, v: State, close: seq<UpstreamCall>)
    requires v.sockets == SocketsLeft(s.sockets, Emptied(s.namespaceClients, done, client))
    requires v.awaitingAck == if done == [] then s.awaitingAck else s.awaitingAck - {client}
    requires var gone := Emptied(s.namespaceClients, done, client);
             v.upstream == s.upstream + FirstNacks(s, client, done) + CloseCalls(s.sockets, gone)
    ensures
      var gone := Emptied(s.namespaceClients, done, client);
      v.upstream + NackCalls(v.sockets, ns, client, OfNamespace(Awaiting(v, client), ns)) + close
      == s.upstream + FirstNacks(s, client, done + [ns]) + (CloseCalls(s.sockets, gone) + close)
  {
    NacksTurn(s, client, done, ns, v);
    var gone := Emptied(s.namespaceClients, done, client);
    assert done == [] ==> gone == [] && CloseCalls(s.sockets, gone) == [];
    assert [] + [ns] == [ns];
    hide Emptied, CloseCalls, SocketsLeft, NackCalls, OfNamespace, FirstNacks;
    var nacks := NackCalls(v.sockets, ns, client, OfNamespace(Awaiting(v, client), ns));
    assert done == [] ==> FirstNacks(s, client, done) == [] by {
      NoNacksYet(s, client);
    }
    UpstreamTurn(s.upstream, FirstNacks(s, client, done), CloseCalls(s.sockets, gone), nacks, close,
                 FirstNacks(s, client, done + [ns]));
  }

  lemma NoNacksYet(s: State, client: string)
    ensures FirstNacks(s, client, []) == []
  {
  }

  lemma NextTurnGone(s: State, client: string, done: seq<string>, ns: string, rest: seq<string>, v: State)
    requires ns !in done && ns !in rest && ns in s.namespaceClients
    requires Without(s.namespaceClients[ns], client) == []
    requires v == UpTo(s, client, done, [ns] + rest)
    ensures ns in v.namespaceClients && Turn(v, client, ns) == UpTo(s, client, done + [ns], rest)
  {
    hide Without, Emptied, Keeping, CloseCalls, ClientsLeft, SocketsLeft, NackCalls, OfNamespace,
         FirstNacks, Turn;
    var gone := Emptied(s.namespaceClients, done, client);
    EmptiedSnoc(s.namespaceClients, done, ns, client);
    ClientsTurn(s.namespaceClients, done, ns, gone, client);
    OrderGone(done, ns, rest, gone);
    SocketsTurn(s, gone, ns);
    NextUpstream(s, client, done, ns, v, if ns in s.sockets then [Close(s.sockets[ns])] else []);
    LastTurn(v, client, ns);
    assert (if done + [ns] == [] then s.awaitingAck else s.awaitingAck - {client}) == v.awaitingAck - {client};
  }

  lemma NextTurnKept(s: State, client: string, done: seq<string>, ns: string, rest: seq<string>, v: State)
    requires ns !in done && ns !in rest && ns in s.namespaceClients
    requires Without(s.namespaceClients[ns], client) != []
    requires v == UpTo(s, client, done, [ns] + rest)
    ensures ns in v.namespaceClients && Turn(v, client, ns) == UpTo(s, client, done + [ns], rest)
  {
    hide Without, Emptied, Keeping, CloseCalls, ClientsLeft, SocketsLeft, NackCalls, OfNamespace,
         FirstNacks, Turn;
    var gone := Emptied(s.namespaceClients, done, client);
    EmptiedSnoc(s.namespaceClients, done, ns, client);
    ClientsTurn(s.namespaceClients, done, ns, gone, client);
    OrderKept(done, ns, rest, gone);
    NextUpstream(s, client, done, ns, v, []);
    EarlierTurn(v, client, ns);
    var nacks := NackCalls(v.sockets, ns, client, OfNamespace(Awaiting(v, client), ns));
    assert v.upstream + nacks + [] == v.upstream + nacks;
    assert CloseCalls(s.sockets, gone) + [] == CloseCalls(s.sockets, gone) && gone + [] == gone;
    assert (if done + [ns] == [] then s.awaitingAck else s.awaitingAck - {client}) == v.awaitingAck - {client};
  }

  lemma NextTurn(s: State, client: string, done: seq<string>, ns: string, rest: seq<string>)
    requires ns !in done && ns !in rest && ns in s.namespaceClients
    ensures ns in UpTo(s, client, done, [ns] + rest).namespaceClients
    ensures Turn(UpTo(s, client, done, [ns] + rest), client, ns) == UpTo(s, client, done + [ns], rest)
  {
    hide Turn, UpTo;
    if Without(s.namespaceClients[ns], client) == [] {
      NextTurnGone(s, client, done, ns, rest, UpTo(s, client, done, [ns] + rest));
    } else {
      NextTurnKept(s, client, done, ns, rest, UpTo(s, client, done, [ns] + rest));
    }
  }

  lemma Ends(order: seq<string>)
    ensures order[..0] == [] && order[0..] == order
    ensures order[..|order|] == order && order[|order|..] == []
  {
  }

  lemma SplitAt(s: State, i: nat)
    requires Structural(s) && i < |s.namespaceOrder|
    ensures var order := s.namespaceOrder;
            && order[..i + 1] == order[..i] + [order[i]] && order[i..] == [order[i]] + order[i + 1..]
            && order[i] !in order[..i] && order[i] !in order[i + 1..] && order[i] in s.namespaceClients
  {
    assert s.namespaceOrder[i] in s.namespaceOrder;
  }
}
