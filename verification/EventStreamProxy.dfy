/**
 * The event-stream proxy as a state machine: one `Step` for every handler and every continuation of an
 * `await`, so that a run is any interleaving the JavaScript event loop can produce.
 *
 * `State` holds the fields of the proxy class, the part of the environment the handlers depend on
 * (connected clients, starts waiting for their socket), and a history of what was done.
 */
module ProxyMachine {
  import opened Wrappers

  datatype Event = Event(subId: string, body: string)

  datatype EventBatch = EventBatch(batchNumber: Option<int>, events: seq<Event>)

  datatype WebSocketMessage = WebSocketMessage(event: string, data: string)

  /** A message as sent to a client: the batch built from one upstream batch. */
  datatype BatchMessage =
    BatchMessage(namespace: string, id: string, events: seq<WebSocketMessage>, batchNumber: Option<int>)

  /** How the promise of one `onEvent` call ends. */
  datatype Settled = Returned(message: WebSocketMessage) | ReturnedUndefined | Rejected

  datatype Arrival = Arrival(namespace: string, batch: EventBatch)

  /** One call of `onEvent`; `outcome` is None while its promise is pending. */
  datatype Handler = Handler(listener: nat, subName: string, event: Event, outcome: Option<Settled>)

  /** A queued call of processEvents, with the subscription names found and the handlers called so far. */
  datatype Task = Task(arrival: Arrival, resolved: seq<string>, handlers: seq<Handler>)

  /** What became of a batch. `client` is None when no client set existed for the namespace. */
  datatype Processed = Aborted | Sent(message: BatchMessage, client: Option<string>)

  /** Calls made on upstream sockets, with the client and message that caused them. */
  datatype UpstreamCall =
    | Ack(socket: nat, client: string, message: BatchMessage)
    | Nack(socket: nat, client: string, message: BatchMessage)
    | Close(socket: nat)

  datatype State = State(
    // fields of the proxy
    configured: bool,
    listeners: nat,
    namespaceOrder: seq<string>,
    namespaceClients: map<string, seq<string>>,
    sockets: map<string, nat>,
    awaitingAck: map<string, seq<BatchMessage>>,
    subscriptionNames: map<string, string>,
    queue: seq<Task>,
    // environment
    connected: set<string>,
    seen: set<string>,
    starting: multiset<(string, string)>,
    socketCount: nat,
    usedIds: set<string>,
    // history
    arrived: seq<Arrival>,
    processed: seq<Processed>,
    upstream: seq<UpstreamCall>)

  function Init(configured: bool, listeners: nat): State {
    State(configured, listeners, [], map[], map[], map[], map[], [],
          {}, {}, multiset{}, 0, {}, [], [], [])
  }

  datatype Step =
    | Connect(client: string)
    | Start(client: string, namespace: string)
    | StartConnected(client: string, namespace: string)
    | StartFailed(client: string, namespace: string)
    | BatchArrives(namespace: string, batch: EventBatch)
    | Lookup(answer: Option<string>)
    | Settle(handler: nat, outcome: Settled)
    | Deliver(id: string, selected: nat)
    | ClientAck(client: string, messageId: Option<string>)
    | Disconnect(client: string)

  // ---- lists of messages ----

  /** The messages of one namespace, in list order. */
  function OfNamespace(msgs: seq<BatchMessage>, namespace: string): (r: seq<BatchMessage>)
    ensures forall m :: m in r <==> m in msgs && m.namespace == namespace
  {
    if msgs == [] then []
    else
      var last := msgs[|msgs| - 1];
      assert msgs == msgs[..|msgs| - 1] + [last];
      OfNamespace(msgs[..|msgs| - 1], namespace) + if last.namespace == namespace then [last] else []
  }

  function WithoutId(msgs: seq<BatchMessage>, id: string): (r: seq<BatchMessage>)
    ensures forall m :: m in r <==> m in msgs && m.id != id
  {
    if msgs == [] then []
    else
      var last := msgs[|msgs| - 1];
      assert msgs == msgs[..|msgs| - 1] + [last];
      WithoutId(msgs[..|msgs| - 1], id) + if last.id == id then [] else [last]
  }

  /** The first message with the given id. */
  function FindId(msgs: seq<BatchMessage>, id: string): (r: Option<BatchMessage>)
    ensures r.Some? ==> r.value in msgs && r.value.id == id
    ensures r.None? ==> forall m :: m in msgs ==> m.id != id
  {
    if msgs == [] then None
    else if msgs[0].id == id then Some(msgs[0])
    else
      assert msgs == [msgs[0]] + msgs[1..];
      FindId(msgs[1..], id)
  }

  /** The results that are messages, in handler order. */
  function Collect(handlers: seq<Handler>): seq<WebSocketMessage> {
    if handlers == [] then []
    else
      var last := handlers[|handlers| - 1].outcome;
      Collect(handlers[..|handlers| - 1])
      + if last.Some? && last.value.Returned? then [last.value.message] else []
  }

  /** The handlers called for one event, one for every listener. */
  function Called(listeners: nat, subName: string, event: Event): seq<Handler> {
    seq(listeners, j requires 0 <= j < listeners => Handler(j, subName, event, None))
  }

  /** Repeated application of `nack`, through the optional socket of the namespace. */
  function NackCalls(sockets: map<string, nat>, namespace: string, client: string, msgs: seq<BatchMessage>)
    : (r: seq<UpstreamCall>)
    ensures |r| == if namespace in sockets then |msgs| else 0
    ensures forall i :: 0 <= i < |r| ==> r[i] == Nack(sockets[namespace], client, msgs[i])
  {
    if namespace in sockets
    then seq(|msgs|, i requires 0 <= i < |msgs| => Nack(sockets[namespace], client, msgs[i]))
    else []
  }

  // ---- handlers ----

  function Awaiting(s: State, client: string): seq<BatchMessage> {
    if client in s.awaitingAck then s.awaitingAck[client] else []
  }

  function OrderWith(order: seq<string>, clients: map<string, seq<string>>, namespace: string): seq<string> {
    if namespace in clients then order else order + [namespace]
  }

  function ClientsWith(clients: map<string, seq<string>>, namespace: string, client: string): map<string, seq<string>> {
    var members := if namespace in clients then clients[namespace] else [];
    clients[namespace := if client in members then members else members + [client]]
  }

  function Join(s: State, client: string, namespace: string): State {
    s.(namespaceOrder := OrderWith(s.namespaceOrder, s.namespaceClients, namespace),
       namespaceClients := ClientsWith(s.namespaceClients, namespace, client))
  }

  function Connected(s: State, client: string): State {
    s.(connected := s.connected + {client}, seen := s.seen + {client},
       awaitingAck := if client in s.awaitingAck then s.awaitingAck else s.awaitingAck[client := []])
  }

  /** startListening up to its first suspension. */
  function Started(s: State, client: string, namespace: string): State {
    if !s.configured then s
    else if namespace in s.sockets then Join(s, client, namespace)
    else s.(starting := s.starting + multiset{(client, namespace)})
  }

  /** startListening resumed with a new socket: it is stored without looking whether one is there. */
  function Resumed(s: State, client: string, namespace: string): State {
    Join(s.(starting := s.starting - multiset{(client, namespace)},
            sockets := s.sockets[namespace := s.socketCount],
            socketCount := s.socketCount + 1), client, namespace)
  }

  function Enqueued(s: State, namespace: string, batch: EventBatch): State {
    var arrival := Arrival(namespace, batch);
    s.(queue := s.queue + [Task(arrival, [], [])], arrived := s.arrived + [arrival])
  }

  /** getSubscriptionName: the cache first, then the answer of upstream (None for unknown or failed). */
  function SubscriptionName(cache: map<string, string>, subId: string, answer: Option<string>): Option<string> {
    if subId in cache then Some(cache[subId]) else answer
  }

  /** One turn of the loop over the events of the batch at the head of the queue. */
  function LookedUp(s: State, answer: Option<string>): State
    requires s.queue != [] && |s.queue[0].resolved| < |s.queue[0].arrival.batch.events|
  {
    var task := s.queue[0];
    var event := task.arrival.batch.events[|task.resolved|];
    match SubscriptionName(s.subscriptionNames, event.subId, answer)
    case None => s.(queue := s.queue[1..], processed := s.processed + [Aborted])
    case Some(name) =>
      s.(subscriptionNames := s.subscriptionNames[event.subId := name],
         queue := [Task(task.arrival, task.resolved + [name],
                        task.handlers + Called(s.listeners, name, event))] + s.queue[1..])
  }

  function HandlerSettled(s: State, handler: nat, outcome: Settled): State
    requires s.queue != [] && handler < |s.queue[0].handlers|
  {
    var task := s.queue[0];
    var settled := task.handlers[handler].(outcome := Some(outcome));
    s.(queue := [task.(handlers := task.handlers[handler := settled])] + s.queue[1..])
  }

  function MessageOf(task: Task, id: string): BatchMessage {
    BatchMessage(task.arrival.namespace, id, Collect(task.handlers), task.arrival.batch.batchNumber)
  }

  /** The end of processEvents: the message is built and given to one client of the namespace. */
  function Delivered(s: State, id: string, selected: nat): State
    requires s.queue != []
    requires s.queue[0].arrival.namespace in s.namespaceClients
      ==> selected < |s.namespaceClients[s.queue[0].arrival.namespace]|
  {
    var message := MessageOf(s.queue[0], id);
    var rest := s.(queue := s.queue[1..], usedIds := s.usedIds + {id});
    if message.namespace !in s.namespaceClients then
      rest.(processed := s.processed + [Sent(message, None)])
    else
      var client := s.namespaceClients[message.namespace][selected];
      rest.(processed := s.processed + [Sent(message, Some(client))],
            awaitingAck := if client in s.awaitingAck
                           then s.awaitingAck[client := s.awaitingAck[client] + [message]]
                           else s.awaitingAck)
  }

  /**
   * handleAck. The second disjunct of the source's condition negates an array, which is never false-like,
   * so only the empty list lets an ack through.
   */
  function Acked(s: State, client: string, messageId: Option<string>): State {
    if messageId.None? || client !in s.awaitingAck then s
    else
      var inflight := FindId(s.awaitingAck[client], messageId.value);
      if inflight.None? then s
      else
        var left := WithoutId(s.awaitingAck[client], messageId.value);
        var namespace := inflight.value.namespace;
        s.(awaitingAck := s.awaitingAck[client := left],
           upstream := s.upstream +
             if left == [] && namespace in s.sockets
             then [Ack(s.sockets[namespace], client, inflight.value)] else [])
  }

  /** The namespaces of `order` whose client set is empty once `client` has left. */
  function Emptied(clients: map<string, seq<string>>, order: seq<string>, client: string): (r: seq<string>)
    ensures forall ns :: ns in r <==> ns in order && ns in clients && Without(clients[ns], client) == []
  {
    if order == [] then []
    else
      var last := order[|order| - 1];
      assert order == order[..|order| - 1] + [last];
      Emptied(clients, order[..|order| - 1], client)
      + if last in clients && Without(clients[last], client) == [] then [last] else []
  }

  function CloseCalls(sockets: map<string, nat>, namespaces: seq<string>): (r: seq<UpstreamCall>)
    ensures forall call :: call in r ==> call.Close?
    ensures forall id :: Close(id) in r <==> exists ns :: ns in namespaces && ns in sockets && sockets[ns] == id
  {
    if namespaces == [] then []
    else
      var last := namespaces[|namespaces| - 1];
      assert namespaces == namespaces[..|namespaces| - 1] + [last];
      CloseCalls(sockets, namespaces[..|namespaces| - 1])
      + if last in sockets then [Close(sockets[last])] else []
  }

  function Keeping(order: seq<string>, gone: seq<string>): (r: seq<string>)
    ensures forall ns :: ns in r <==> ns in order && ns !in gone
  {
    if order == [] then []
    else
      var last := order[|order| - 1];
      assert order == order[..|order| - 1] + [last];
      Keeping(order[..|order| - 1], gone) + if last in gone then [] else [last]
  }

  function ClientsLeft(clients: map<string, seq<string>>, order: seq<string>, gone: seq<string>, client: string)
    : map<string, seq<string>>
  {
    map ns | ns in clients && ns !in gone :: if ns in order then Without(clients[ns], client) else clients[ns]
  }

  function SocketsLeft(sockets: map<string, nat>, gone: seq<string>): map<string, nat> {
    map ns | ns in sockets && ns !in gone :: sockets[ns]
  }

  /**
   * handleDisconnect. The in-flight list of the client is dropped in the first turn of the loop over all
   * namespaces, so only messages of the first namespace are nacked, whoever uses that namespace.
   */
  function Disconnected(s: State, client: string): State {
    if s.namespaceOrder == [] then s.(connected := s.connected - {client})
    else
      var first := s.namespaceOrder[0];
      var nacked := OfNamespace(Awaiting(s, client), first);
      var gone := Emptied(s.namespaceClients, s.namespaceOrder, client);
      s.(connected := s.connected - {client},
         namespaceOrder := Keeping(s.namespaceOrder, gone),
         namespaceClients := ClientsLeft(s.namespaceClients, s.namespaceOrder, gone, client),
         sockets := SocketsLeft(s.sockets, gone),
         awaitingAck := s.awaitingAck - {client},
         upstream := s.upstream + NackCalls(s.sockets, first, client, nacked) + CloseCalls(s.sockets, gone))
  }

  // ---- runs ----

  ghost predicate Enabled(s: State, step: Step) {
    match step
    case Connect(client) => client !in s.seen
    case Start(client, _) => client in s.connected
    case StartConnected(client, namespace) => (client, namespace) in s.starting
    case StartFailed(client, namespace) => (client, namespace) in s.starting
    case BatchArrives(_, _) => true
    case Lookup(_) => s.queue != [] && |s.queue[0].resolved| < |s.queue[0].arrival.batch.events|
    case Settle(handler, _) =>
      s.queue != [] && handler < |s.queue[0].handlers| && s.queue[0].handlers[handler].outcome.None?
    case Deliver(id, selected) =>
      && s.queue != [] && id !in s.usedIds
      && |s.queue[0].resolved| == |s.queue[0].arrival.batch.events|
      && (forall k :: 0 <= k < |s.queue[0].handlers| ==> s.queue[0].handlers[k].outcome.Some?)
      && (s.queue[0].arrival.namespace in s.namespaceClients
          ==> selected < |s.namespaceClients[s.queue[0].arrival.namespace]|)
    case ClientAck(client, _) => client in s.connected
    case Disconnect(client) => client in s.connected
  }

  function Next(s: State, step: Step): State
    requires Enabled(s, step)
  {
    match step
    case Connect(client) => Connected(s, client)
    case Start(client, namespace) => Started(s, client, namespace)
    case StartConnected(client, namespace) => Resumed(s, client, namespace)
    case StartFailed(client, namespace) => s.(starting := s.starting - multiset{(client, namespace)})
    case BatchArrives(namespace, batch) => Enqueued(s, namespace, batch)
    case Lookup(answer) => LookedUp(s, answer)
    case Settle(handler, outcome) => HandlerSettled(s, handler, outcome)
    case Deliver(id, selected) => Delivered(s, id, selected)
    case ClientAck(client, messageId) => Acked(s, client, messageId)
    case Disconnect(client) => Disconnected(s, client)
  }

  /** The states of a run: trace[i] steps to trace[i + 1] by steps[i]. */
  ghost predicate IsRun(trace: seq<State>, steps: seq<Step>) {
    && |trace| == |steps| + 1
    && trace[0] == Init(trace[0].configured, trace[0].listeners)
    && forall i :: 0 <= i < |steps| ==> Enabled(trace[i], steps[i]) && trace[i + 1] == Next(trace[i], steps[i])
  }

  /** One turn of a run, without the rest of it. */
  lemma RunStep(trace: seq<State>, steps: seq<Step>, i: nat)
    requires IsRun(trace, steps) && i < |steps|
    ensures i + 1 < |trace| && Enabled(trace[i], steps[i]) && trace[i + 1] == Next(trace[i], steps[i])
  {
  }

  // ---- what each handler leaves alone ----

  lemma AckedFrame(s: State, client: string, messageId: Option<string>)
    ensures var s' := Acked(s, client, messageId);
            && s' == s.(awaitingAck := s'.awaitingAck, upstream := s'.upstream)
            && s'.awaitingAck.Keys == s.awaitingAck.Keys
  {
  }

  lemma DeliveredFrame(s: State, id: string, selected: nat)
    requires Enabled(s, Deliver(id, selected))
    ensures var s' := Delivered(s, id, selected);
            && s' == s.(queue := s'.queue, usedIds := s'.usedIds, processed := s'.processed,
                        awaitingAck := s'.awaitingAck)
            && s'.awaitingAck.Keys == s.awaitingAck.Keys
  {
  }

  lemma LookedUpFrame(s: State, answer: Option<string>)
    requires Enabled(s, Lookup(answer))
    ensures var s' := LookedUp(s, answer);
            s' == s.(queue := s'.queue, subscriptionNames := s'.subscriptionNames, processed := s'.processed)
  {
  }

  lemma StartedFrame(s: State, client: string, namespace: string)
    ensures var s' := Started(s, client, namespace);
            && s' == s.(namespaceOrder := s'.namespaceOrder, namespaceClients := s'.namespaceClients,
                        starting := s'.starting)
            && (s'.starting == s.starting || s'.starting == s.starting + multiset{(client, namespace)})
  {
  }

  lemma ResumedFrame(s: State, client: string, namespace: string)
    ensures var s' := Resumed(s, client, namespace);
            s' == s.(namespaceOrder := s'.namespaceOrder, namespaceClients := s'.namespaceClients,
                     starting := s.starting - multiset{(client, namespace)},
                     sockets := s.sockets[namespace := s.socketCount],
                     socketCount := s.socketCount + 1)
  {
  }

  lemma DisconnectedFrame(s: State, client: string)
    ensures var s' := Disconnected(s, client);
            && s' == s.(connected := s.connected - {client}, namespaceOrder := s'.namespaceOrder,
                        namespaceClients := s'.namespaceClients, sockets := s'.sockets,
                        awaitingAck := s'.awaitingAck, upstream := s'.upstream)
            && s'.awaitingAck.Keys >= s.awaitingAck.Keys - {client}
  {
  }

  /** The maps of namespaces and sockets. */
  lemma StepMaps(s: State, step: Step)
    requires Enabled(s, step)
    ensures !step.StartConnected? && !step.Disconnect? ==>
      Next(s, step).sockets == s.sockets && Next(s, step).socketCount == s.socketCount
    ensures !step.Start? && !step.StartConnected? && !step.Disconnect? ==>
      Next(s, step).namespaceOrder == s.namespaceOrder && Next(s, step).namespaceClients == s.namespaceClients
  {
    hide Acked, Delivered, LookedUp, Started, Resumed, Disconnected;
    match step
    case Start(client, namespace) => StartedFrame(s, client, namespace);
    case Lookup(answer) => LookedUpFrame(s, answer);
    case Deliver(id, selected) => DeliveredFrame(s, id, selected);
    case ClientAck(client, messageId) => AckedFrame(s, client, messageId);
    case _ =>
  }

  /** Messages in flight, calls upstream and the queue. */
  lemma StepTraffic(s: State, step: Step)
    requires Enabled(s, step)
    ensures !step.ClientAck? && !step.Disconnect? ==> Next(s, step).upstream == s.upstream
    ensures !step.ClientAck? && !step.Disconnect? && !step.Deliver? && !step.Connect? ==>
      Next(s, step).awaitingAck == s.awaitingAck
    ensures !step.Disconnect? ==> Next(s, step).awaitingAck.Keys >= s.awaitingAck.Keys
    ensures !step.BatchArrives? && !step.Lookup? && !step.Settle? && !step.Deliver? ==>
      Next(s, step).queue == s.queue
  {
    hide Acked, Delivered, LookedUp, Started, Resumed, Disconnected;
    match step
    case Start(client, namespace) => StartedFrame(s, client, namespace);
    case StartConnected(client, namespace) => ResumedFrame(s, client, namespace);
    case Lookup(answer) => LookedUpFrame(s, answer);
    case Deliver(id, selected) => DeliveredFrame(s, id, selected);
    case ClientAck(client, messageId) => AckedFrame(s, client, messageId);
    case Disconnect(client) => DisconnectedFrame(s, client);
    case _ =>
  }

  /** Clients, connected and starting. */
  lemma StepClients(s: State, step: Step)
    requires Enabled(s, step)
    ensures Next(s, step).seen == if step.Connect? then s.seen + {step.client} else s.seen
    ensures Next(s, step).connected
         == if step.Connect? then s.connected + {step.client}
            else if step.Disconnect? then s.connected - {step.client} else s.connected
  {
    hide Acked, Delivered, LookedUp, Started, Resumed, Disconnected;
    match step
    case Start(client, namespace) => StartedFrame(s, client, namespace);
    case StartConnected(client, namespace) => ResumedFrame(s, client, namespace);
    case Lookup(answer) => LookedUpFrame(s, answer);
    case Deliver(id, selected) => DeliveredFrame(s, id, selected);
    case ClientAck(client, messageId) => AckedFrame(s, client, messageId);
    case Disconnect(client) => DisconnectedFrame(s, client);
    case _ =>
  }

  /** The starts that wait for a socket: one more for a namespace that has none, one less when it resumes or fails. */
  lemma StepStarts(s: State, step: Step)
    requires Enabled(s, step)
    ensures Next(s, step).starting
         == match step
            case Start(client, namespace) =>
              if s.configured && namespace !in s.sockets then s.starting + multiset{(client, namespace)} else s.starting
            case StartConnected(client, namespace) => s.starting - multiset{(client, namespace)}
            case StartFailed(client, namespace) => s.starting - multiset{(client, namespace)}
            case _ => s.starting
  {
    hide Acked, Delivered, LookedUp, Resumed, Disconnected;
    match step
    case Start(client, namespace) =>
    case StartConnected(client, namespace) => ResumedFrame(s, client, namespace);
    case Lookup(answer) => LookedUpFrame(s, answer);
    case Deliver(id, selected) => DeliveredFrame(s, id, selected);
    case ClientAck(client, messageId) => AckedFrame(s, client, messageId);
    case Disconnect(client) => DisconnectedFrame(s, client);
    case _ =>
  }

  /** The frame of whichever handler a step runs. */
  lemma StepFrame(s: State, step: Step)
    requires Enabled(s, step)
    ensures !step.StartConnected? && !step.Disconnect? ==>
      && Next(s, step).sockets == s.sockets
      && Next(s, step).socketCount == s.socketCount
    ensures !step.ClientAck? && !step.Disconnect? ==> Next(s, step).upstream == s.upstream
    ensures !step.Start? && !step.StartConnected? && !step.Disconnect? ==>
      && Next(s, step).namespaceOrder == s.namespaceOrder
      && Next(s, step).namespaceClients == s.namespaceClients
    ensures !step.ClientAck? && !step.Disconnect? && !step.Deliver? && !step.Connect? ==>
      Next(s, step).awaitingAck == s.awaitingAck
    ensures !step.Disconnect? ==> Next(s, step).awaitingAck.Keys >= s.awaitingAck.Keys
    ensures !step.BatchArrives? && !step.Lookup? && !step.Settle? && !step.Deliver? ==>
      Next(s, step).queue == s.queue
    ensures Next(s, step).seen == if step.Connect? then s.seen + {step.client} else s.seen
    ensures Next(s, step).connected
         == if step.Connect? then s.connected + {step.client}
            else if step.Disconnect? then s.connected - {step.client} else s.connected
    ensures Next(s, step).starting <= s.starting + if step.Start? then multiset{(step.client, step.namespace)} else multiset{}
  {
    hide *;
    StepMaps(s, step);
    StepTraffic(s, step);
    StepClients(s, step);
    StepStarts(s, step);
  }
}
