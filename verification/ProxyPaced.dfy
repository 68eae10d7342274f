/**
 * When every client uses one namespace and upstream waits for an answer before it sends the next batch,
 * every ack of a message a client holds reaches upstream.
 */
module ProxyPaced {
  import opened Wrappers
  import opened ProxyMachine
  import opened ProxyInvariants
  import opened ProxyProperties

  /** `home` gives the one namespace a client starts; a batch arrives only when its namespace is idle. */
  ghost predicate Paced(home: string -> string, s: State, step: Step) {
    && (step.Start? ==> step.namespace == home(step.client))
    && (step.BatchArrives? ==> Idle(s.queue, s.awaitingAck, step.namespace))
  }

  /** No batch of the namespace is queued, and no message of it awaits an ack. */
  ghost predicate Idle(queue: seq<Task>, awaiting: map<string, seq<BatchMessage>>, ns: string) {
    && (forall k :: 0 <= k < |queue| ==> queue[k].arrival.namespace != ns)
    && (forall c, m :: InFlight(awaiting, c, m) ==> m.namespace != ns)
  }

  ghost predicate PacedRun(home: string -> string, trace: seq<State>, steps: seq<Step>) {
    && IsRun(trace, steps)
    && forall i :: 0 <= i < |steps| ==> Paced(home, trace[i], steps[i])
  }

  ghost predicate AtHome(home: string -> string, s: State) {
    && (forall c, ns :: (c, ns) in s.starting ==> ns == home(c))
    && (forall c, ns :: Member(s.namespaceClients, ns, c) ==> ns == home(c))
  }

  /** Each namespace has at most one batch between arrival and answer, queued or with one client. */
  ghost predicate OneAtATime(queue: seq<Task>, awaiting: map<string, seq<BatchMessage>>) {
    && (forall j, k :: 0 <= j < k < |queue| ==> queue[j].arrival.namespace != queue[k].arrival.namespace)
    && (forall k, c, m :: 0 <= k < |queue| && InFlight(awaiting, c, m) ==> m.namespace != queue[k].arrival.namespace)
    && (forall c :: c in awaiting ==> |awaiting[c]| <= 1)
  }

  lemma StepAtHome(home: string -> string, s: State, step: Step)
    requires Structural(s) && AtHome(home, s) && Enabled(s, step) && Paced(home, s, step)
    ensures AtHome(home, Next(s, step))
  {
    StepMembers(s, step);
    StepFrame(s, step);
    ResumesFromStarting(s, step);
    hide Next, Enabled, Structural, Member, Idle;
  }

  lemma ResumesFromStarting(s: State, step: Step)
    requires Enabled(s, step)
    ensures step.StartConnected? ==> (step.client, step.namespace) in s.starting
  {
  }

  lemma DeliverOneAtATime(home: string -> string, s: State, id: string, selected: nat)
    requires Structural(s) && AtHome(home, s) && Enabled(s, Deliver(id, selected))
    requires OneAtATime(s.queue, s.awaitingAck)
    ensures OneAtATime(Delivered(s, id, selected).queue, Delivered(s, id, selected).awaitingAck)
  {
    var s' := Delivered(s, id, selected);
    var ns := s.queue[0].arrival.namespace;
    assert forall k :: 0 <= k < |s'.queue| ==> s'.queue[k] == s.queue[k + 1];
    if ns in s.namespaceClients {
      var client := s.namespaceClients[ns][selected];
      assert Member(s.namespaceClients, ns, client);
      if client in s.awaitingAck && s.awaitingAck[client] != [] {
        var m := s.awaitingAck[client][0];
        assert InFlight(s.awaitingAck, client, m);
        assert Member(s.namespaceClients, m.namespace, client);
        assert false;
      }
      forall c, m | InFlight(s'.awaitingAck, c, m)
        ensures InFlight(s.awaitingAck, c, m) || m.namespace == ns
      {
      }
    }
  }

  lemma ShrinkingOneAtATime(queue: seq<Task>, awaiting: map<string, seq<BatchMessage>>,
                            queue': seq<Task>, awaiting': map<string, seq<BatchMessage>>)
    requires OneAtATime(queue, awaiting)
    requires forall c :: c in awaiting' ==> |awaiting'[c]| <= 1
    requires forall c, m :: InFlight(awaiting', c, m) ==> InFlight(awaiting, c, m)
    requires |queue'| <= |queue|
    requires forall k :: 0 <= k < |queue'| ==>
      queue'[k].arrival == queue[k + (|queue| - |queue'|)].arrival
    ensures OneAtATime(queue', awaiting')
  {
  }

  lemma {:induction false} WithoutIdShorter(msgs: seq<BatchMessage>, id: string)
    ensures |WithoutId(msgs, id)| <= |msgs|
  {
    if msgs != [] {
      WithoutIdShorter(msgs[..|msgs| - 1], id);
    }
  }

  lemma AckOneAtATime(s: State, client: string, messageId: Option<string>)
    requires OneAtATime(s.queue, s.awaitingAck)
    ensures OneAtATime(s.queue, Acked(s, client, messageId).awaitingAck)
  {
    var s' := Acked(s, client, messageId);
    if client in s.awaitingAck && messageId.Some? {
      WithoutIdShorter(s.awaitingAck[client], messageId.value);
    }
    assert forall c, m :: InFlight(s'.awaitingAck, c, m) ==> InFlight(s.awaitingAck, c, m);
    ShrinkingOneAtATime(s.queue, s.awaitingAck, s.queue, s'.awaitingAck);
  }

  lemma LookupOneAtATime(s: State, answer: Option<string>)
    requires Enabled(s, Lookup(answer)) && OneAtATime(s.queue, s.awaitingAck)
    ensures OneAtATime(LookedUp(s, answer).queue, s.awaitingAck)
  {
    ShrinkingOneAtATime(s.queue, s.awaitingAck, LookedUp(s, answer).queue, s.awaitingAck);
  }

  lemma SettleOneAtATime(s: State, k: nat, outcome: Settled)
    requires Enabled(s, Settle(k, outcome)) && OneAtATime(s.queue, s.awaitingAck)
    ensures OneAtATime(HandlerSettled(s, k, outcome).queue, s.awaitingAck)
  {
    ShrinkingOneAtATime(s.queue, s.awaitingAck, HandlerSettled(s, k, outcome).queue, s.awaitingAck);
  }

  lemma ConnectOneAtATime(s: State, client: string)
    requires OneAtATime(s.queue, s.awaitingAck)
    ensures OneAtATime(s.queue, Connected(s, client).awaitingAck)
  {
    ShrinkingOneAtATime(s.queue, s.awaitingAck, s.queue, Connected(s, client).awaitingAck);
  }

  lemma DisconnectOneAtATime(s: State, client: string)
    requires OneAtATime(s.queue, s.awaitingAck)
    ensures OneAtATime(s.queue, Disconnected(s, client).awaitingAck)
  {
    DisconnectDrops(s, client);
    hide Disconnected;
    ShrinkingOneAtATime(s.queue, s.awaitingAck, s.queue, Disconnected(s, client).awaitingAck);
  }

  lemma StepOneAtATime(home: string -> string, s: State, step: Step)
    requires Structural(s) && AtHome(home, s) && Enabled(s, step) && Paced(home, s, step)
    requires OneAtATime(s.queue, s.awaitingAck)
    ensures OneAtATime(Next(s, step).queue, Next(s, step).awaitingAck)
  {
    StepFrame(s, step);
    hide Structural, AtHome, Acked, Delivered, LookedUp, Started, Resumed, Disconnected, HandlerSettled, Connected;
    match step
    case Connect(client) => ConnectOneAtATime(s, client);
    case Lookup(answer) => LookedUpFrame(s, answer); LookupOneAtATime(s, answer);
    case Settle(k, outcome) => SettleOneAtATime(s, k, outcome);
    case Deliver(id, selected) => DeliverOneAtATime(home, s, id, selected);
    case ClientAck(client, messageId) => AckOneAtATime(s, client, messageId);
    case Disconnect(client) => DisconnectOneAtATime(s, client);
    case BatchArrives(_, _) =>
    case Start(_, _) =>
    case StartConnected(_, _) =>
    case StartFailed(_, _) =>
  }

  lemma InitPaced(home: string -> string, configured: bool, listeners: nat)
    ensures var s := Init(configured, listeners);
            AtHome(home, s) && OneAtATime(s.queue, s.awaitingAck)
  {
  }

  lemma {:induction false} PacedInvariant(home: string -> string, trace: seq<State>, steps: seq<Step>, i: nat)
    requires PacedRun(home, trace, steps) && i < |trace|
    ensures Structural(trace[i]) && Lifecycle(trace[i])
    ensures AtHome(home, trace[i]) && OneAtATime(trace[i].queue, trace[i].awaitingAck)
  {
    hide Next, Enabled, Structural, Lifecycle, AtHome, OneAtATime, Paced;
    EveryRun(trace, steps, i);
    if i == 0 {
      InitPaced(home, trace[0].configured, trace[0].listeners);
    } else {
      PacedInvariant(home, trace, steps, i - 1);
      RunStep(trace, steps, i - 1);
      StepAtHome(home, trace[i - 1], steps[i - 1]);
      StepOneAtATime(home, trace[i - 1], steps[i - 1]);
    }
  }

  // ---- counting ----

  /** The step is an ack of a message its client holds. */
  ghost predicate ValidAck(s: State, step: Step) {
    && step.ClientAck? && step.messageId.Some? && step.client in s.awaitingAck
    && FindId(s.awaitingAck[step.client], step.messageId.value).Some?
  }

  ghost function ValidAcks(trace: seq<State>, steps: seq<Step>, i: nat): nat
    requires i <= |steps| <= |trace|
  {
    if i == 0 then 0
    else ValidAcks(trace, steps, i - 1) + if ValidAck(trace[i - 1], steps[i - 1]) then 1 else 0
  }

  function AcksIn(calls: seq<UpstreamCall>): nat {
    if calls == [] then 0
    else AcksIn(calls[..|calls| - 1]) + if calls[|calls| - 1].Ack? then 1 else 0
  }

  lemma {:induction false} AcksInConcat(a: seq<UpstreamCall>, b: seq<UpstreamCall>)
    ensures AcksIn(a + b) == AcksIn(a) + AcksIn(b)
  {
    if b == [] {
      assert a + b == a;
    } else {
      AcksInConcat(a, b[..|b| - 1]);
      assert (a + b)[..|a + b| - 1] == a + b[..|b| - 1];
    }
  }

  lemma {:induction false} NoAcksIn(calls: seq<UpstreamCall>)
    requires forall k :: 0 <= k < |calls| ==> !calls[k].Ack?
    ensures AcksIn(calls) == 0
  {
    if calls != [] {
      NoAcksIn(calls[..|calls| - 1]);
    }
  }

  lemma TailWithoutAcks(before: seq<UpstreamCall>, calls: seq<UpstreamCall>)
    requires before <= calls
    requires forall k :: |before| <= k < |calls| ==> !calls[k].Ack?
    ensures AcksIn(calls) == AcksIn(before)
  {
    assert calls == before + calls[|before|..];
    NoAcksIn(calls[|before|..]);
    AcksInConcat(before, calls[|before|..]);
  }

  lemma DisconnectAcksNothing(s: State, client: string)
    requires Structural(s) && Lifecycle(s)
    ensures AcksIn(Disconnected(s, client).upstream) == AcksIn(s.upstream)
  {
    DisconnectDrops(s, client);
    if s.namespaceOrder != [] {
      DisconnectNacksFirstNamespace(s, client);
      DisconnectKeepsUpstream(s, client);
      hide Disconnected, Structural, Lifecycle;
      var calls := Disconnected(s, client).upstream;
      TailWithoutAcks(s.upstream, calls);
    }
  }

  lemma DisconnectKeepsUpstream(s: State, client: string)
    requires Structural(s) && s.namespaceOrder != []
    ensures s.upstream <= Disconnected(s, client).upstream
  {
    DisconnectCalls(s, client);
  }

  lemma AckReaches(s: State, client: string, messageId: Option<string>)
    requires Structural(s) && Lifecycle(s) && OneAtATime(s.queue, s.awaitingAck)
    ensures AcksIn(Acked(s, client, messageId).upstream)
         == AcksIn(s.upstream) + if ValidAck(s, ClientAck(client, messageId)) then 1 else 0
  {
    if ValidAck(s, ClientAck(client, messageId)) {
      var m := FindId(s.awaitingAck[client], messageId.value).value;
      AckRule(s, client, m.id, m);
      var call := Ack(s.sockets[m.namespace], client, m);
      hide Acked, Structural, Lifecycle;
      AcksInConcat(s.upstream, [call]);
      assert AcksIn([call]) == 1;
    }
  }

  /** In a paced run every valid client ack yields exactly one upstream ack. */
  lemma {:induction false} EveryValidAckReachesUpstream(home: string -> string, trace: seq<State>, steps: seq<Step>, i: nat)
    requires PacedRun(home, trace, steps) && i < |trace|
    ensures AcksIn(trace[i].upstream) == ValidAcks(trace, steps, i)
  {
    hide Enabled, Structural, Lifecycle, AtHome, OneAtATime, Paced;
    hide Acked, Delivered, LookedUp, Started, Resumed, Disconnected;
    if i > 0 {
      var s, step := trace[i - 1], steps[i - 1];
      EveryValidAckReachesUpstream(home, trace, steps, i - 1);
      PacedInvariant(home, trace, steps, i - 1);
      RunStep(trace, steps, i - 1);
      StepFrame(s, step);
      if step.ClientAck? {
        AckReaches(s, step.client, step.messageId);
      } else if step.Disconnect? {
        DisconnectAcksNothing(s, step.client);
      }
    }
  }
}
