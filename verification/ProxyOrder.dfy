/** Order and content: what each batch becomes, however the promises it waits for settle. */
module ProxyOrder {
  import opened Wrappers
  import opened ProxyMachine

  // ---- what a run answers ----

  /**
   * The answers that one run gives: to the look-up for an event of a batch, by their positions, and to the
   * calls made for a batch, by their position. The same subscription or event may be answered differently
   * at another time.
   */
  datatype Answers = Answers(names: (nat, nat) -> Option<string>, outcomes: (nat, nat) -> Settled)

  /** What the look-up of the next event gives, with the cache included. */
  function NameFound(s: State, answer: Option<string>): Option<string>
    requires s.queue != [] && |s.queue[0].resolved| < |s.queue[0].arrival.batch.events|
  {
    var subId := s.queue[0].arrival.batch.events[|s.queue[0].resolved|].subId;
    if subId in s.subscriptionNames then Some(s.subscriptionNames[subId]) else answer
  }

  /** The subscription that the next look-up is about. */
  function Sought(s: State): string
    requires s.queue != [] && |s.queue[0].resolved| < |s.queue[0].arrival.batch.events|
  {
    s.queue[0].arrival.batch.events[|s.queue[0].resolved|].subId
  }

  /** The batch at the head of the queue has as many before it as have been processed. */
  ghost predicate Gives(a: Answers, s: State, step: Step)
    requires Enabled(s, step)
  {
    match step
    case Lookup(answer) => a.names(|s.processed|, |s.queue[0].resolved|) == NameFound(s, answer)
    case Settle(k, outcome) => a.outcomes(|s.processed|, k) == outcome
    case _ => true
  }

  ghost predicate RunGives(a: Answers, trace: seq<State>, steps: seq<Step>, i: nat)
    requires IsRun(trace, steps) && i <= |steps|
  {
    forall k :: 0 <= k < i ==> Gives(a, trace[k], steps[k])
  }

  /** The event of the batch has been looked up. */
  ghost predicate Asked(s: State, b: nat, e: nat) {
    b < |s.processed| || (b == |s.processed| && s.queue != [] && e < |s.queue[0].resolved|)
  }

  /** The call for the batch has settled. */
  ghost predicate Answered(s: State, b: nat, k: nat) {
    || b < |s.processed|
    || (b == |s.processed| && s.queue != [] && k < |s.queue[0].handlers| && s.queue[0].handlers[k].outcome.Some?)
  }

  lemma LookupProgress(s: State, answer: Option<string>)
    requires Enabled(s, Lookup(answer))
    ensures Asked(LookedUp(s, answer), |s.processed|, |s.queue[0].resolved|)
    ensures forall b, e :: Asked(s, b, e) ==> Asked(LookedUp(s, answer), b, e)
    ensures forall b, k :: Answered(s, b, k) ==> Answered(LookedUp(s, answer), b, k)
  {
  }

  lemma SettleProgress(s: State, k: nat, outcome: Settled)
    requires Enabled(s, Settle(k, outcome))
    ensures Answered(HandlerSettled(s, k, outcome), |s.processed|, k)
    ensures forall b, e :: Asked(s, b, e) ==> Asked(HandlerSettled(s, k, outcome), b, e)
    ensures forall b, n :: Answered(s, b, n) ==> Answered(HandlerSettled(s, k, outcome), b, n)
  {
  }

  lemma SameProgress(s: State, s': State)
    requires s'.processed == s.processed && (s.queue != [] ==> s'.queue != [] && s'.queue[0] == s.queue[0])
    ensures forall b, e :: Asked(s, b, e) ==> Asked(s', b, e)
    ensures forall b, k :: Answered(s, b, k) ==> Answered(s', b, k)
  {
  }

  lemma StepProgress(s: State, step: Step)
    requires Enabled(s, step)
    ensures forall b, e :: Asked(s, b, e) ==> Asked(Next(s, step), b, e)
    ensures forall b, k :: Answered(s, b, k) ==> Answered(Next(s, step), b, k)
    ensures step.Lookup? ==> Asked(Next(s, step), |s.processed|, |s.queue[0].resolved|)
    ensures step.Settle? ==> Answered(Next(s, step), |s.processed|, step.handler)
  {
    hide Asked, Answered, LookedUp, HandlerSettled, Delivered, Started, Resumed, Acked, Disconnected;
    match step
    case Lookup(answer) => LookupProgress(s, answer);
    case Settle(k, outcome) => SettleProgress(s, k, outcome);
    case Deliver(id, selected) => DeliverProgress(s, id, selected);
    case BatchArrives(_, _) => SameProgress(s, Next(s, step));
    case Start(client, ns) => StartedFrame(s, client, ns); SameProgress(s, Next(s, step));
    case StartConnected(client, ns) => ResumedFrame(s, client, ns); SameProgress(s, Next(s, step));
    case ClientAck(client, id) => AckedFrame(s, client, id); SameProgress(s, Next(s, step));
    case Disconnect(client) => DisconnectedFrame(s, client); SameProgress(s, Next(s, step));
    case Connect(client) => SameProgress(s, Next(s, step));
    case StartFailed(_, _) => SameProgress(s, Next(s, step));
  }

  lemma DeliverProgress(s: State, id: string, selected: nat)
    requires Enabled(s, Deliver(id, selected))
    ensures forall b, e :: Asked(s, b, e) ==> Asked(Delivered(s, id, selected), b, e)
    ensures forall b, k :: Answered(s, b, k) ==> Answered(Delivered(s, id, selected), b, k)
  {
    assert |Delivered(s, id, selected).processed| == |s.processed| + 1;
    hide Delivered;
  }

  lemma {:induction false} OnceAsked(trace: seq<State>, steps: seq<Step>, k: nat, i: nat)
    requires IsRun(trace, steps) && k < i < |trace|
    ensures steps[k].Lookup? ==> Asked(trace[i], |trace[k].processed|, |trace[k].queue[0].resolved|)
    ensures steps[k].Settle? ==> Answered(trace[i], |trace[k].processed|, steps[k].handler)
  {
    hide Next, Asked, Answered;
    if k < i - 1 {
      OnceAsked(trace, steps, k, i - 1);
    }
    RunStep(trace, steps, i - 1);
    StepProgress(trace[i - 1], steps[i - 1]);
  }

  /** Answers changed at one point. */
  function NamesWith(names: (nat, nat) -> Option<string>, b: nat, e: nat, name: Option<string>): (nat, nat) -> Option<string> {
    (x: nat, y: nat) => if x == b && y == e then name else names(x, y)
  }

  function OutcomesWith(outcomes: (nat, nat) -> Settled, b: nat, k: nat, outcome: Settled): (nat, nat) -> Settled {
    (x: nat, y: nat) => if x == b && y == k then outcome else outcomes(x, y)
  }

  /** Every run gives answers: no look-up and no call is answered twice. */
  lemma {:induction false} EveryRunGives(trace: seq<State>, steps: seq<Step>, i: nat) returns (a: Answers)
    requires IsRun(trace, steps) && i <= |steps|
    ensures RunGives(a, trace, steps, i)
  {
    if i == 0 {
      a := Answers((b, e) => None, (b, k) => Rejected);
    } else {
      var a' := EveryRunGives(trace, steps, i - 1);
      var s, step := trace[i - 1], steps[i - 1];
      a := WithStep(a', s, step);
      forall k | 0 <= k < i ensures Gives(a, trace[k], steps[k]) {
        if k < i - 1 {
          OnceAsked(trace, steps, k, i - 1);
          StillGives(a', trace[k], steps[k], s, step);
        }
      }
    }
  }

  ghost function WithStep(a: Answers, s: State, step: Step): (r: Answers)
    requires Enabled(s, step)
    ensures Gives(r, s, step)
  {
    match step
    case Lookup(answer) => a.(names := NamesWith(a.names, |s.processed|, |s.queue[0].resolved|, NameFound(s, answer)))
    case Settle(k, outcome) => a.(outcomes := OutcomesWith(a.outcomes, |s.processed|, k, outcome))
    case _ => a
  }

  /** A later step is about something that an earlier one was not about. */
  lemma StillGives(a: Answers, earlier: State, step: Step, s: State, step': Step)
    requires Enabled(earlier, step) && Gives(a, earlier, step) && Enabled(s, step')
    requires step.Lookup? ==> Asked(s, |earlier.processed|, |earlier.queue[0].resolved|)
    requires step.Settle? ==> Answered(s, |earlier.processed|, step.handler)
    ensures Gives(WithStep(a, s, step'), earlier, step)
  {
    if step.Lookup? && step'.Lookup? {
      assert !Asked(s, |s.processed|, |s.queue[0].resolved|);
    } else if step.Settle? && step'.Settle? {
      assert !Answered(s, |s.processed|, step'.handler);
    }
  }

  // ---- the reference meaning of a batch ----

  /** Every look-up of the batch gives a name. */
  ghost predicate Resolvable(a: Answers, b: nat, events: nat) {
    forall e :: 0 <= e < events ==> a.names(b, e).Some?
  }

  /** The messages among the outcomes of some calls in a row: the defined, non-failing results, in their order. */
  ghost function Results(a: Answers, b: nat, first: nat, calls: nat): seq<WebSocketMessage> {
    if calls == 0 then []
    else
      var result := a.outcomes(b, first + calls - 1);
      Results(a, b, first, calls - 1) + if result.Returned? then [result.message] else []
  }

  /** Event by event, and within an event listener by listener. */
  ghost function BatchMessages(a: Answers, b: nat, listeners: nat, events: nat): seq<WebSocketMessage> {
    if events == 0 then []
    else BatchMessages(a, b, listeners, events - 1) + Results(a, b, Times(events - 1, listeners), listeners)
  }

  /** The position of the first call for an event. */
  function Times(event: nat, listeners: nat): nat {
    if event == 0 then 0 else Times(event - 1, listeners) + listeners
  }

  /** What a batch must become: nothing when a look-up of its own failed, else one message with its content. */
  ghost predicate AsExpected(a: Answers, listeners: nat, b: nat, arrival: Arrival, p: Processed) {
    if !Resolvable(a, b, |arrival.batch.events|) then p.Aborted?
    else
      && p.Sent?
      && p.message.namespace == arrival.namespace
      && p.message.batchNumber == arrival.batch.batchNumber
      && p.message.events == BatchMessages(a, b, listeners, |arrival.batch.events|)
  }

  // ---- the calls of a task, against the reference ----

  /** `hs` are the calls for the first |names| events: every listener for the one, then every listener for the next. */
  ghost predicate Calls(listeners: nat, names: seq<string>, events: seq<Event>, hs: seq<Handler>)
    requires |names| <= |events|
  {
    if names == [] then hs == []
    else
      var n := |names| - 1;
      && |hs| >= listeners
      && Calls(listeners, names[..n], events, hs[..|hs| - listeners])
      && CallsFor(names[n], events[n], hs[|hs| - listeners..])
  }

  /** One call to each listener in turn, with the name found for the event. */
  ghost predicate CallsFor(subName: string, event: Event, hs: seq<Handler>) {
    forall j :: 0 <= j < |hs| ==> hs[j].listener == j && hs[j].subName == subName && hs[j].event == event
  }

  ghost predicate Outcomes(a: Answers, b: nat, hs: seq<Handler>) {
    forall k :: 0 <= k < |hs| && hs[k].outcome.Some? ==> hs[k].outcome.value == a.outcomes(b, k)
  }

  lemma {:induction false} CallCount(listeners: nat, names: seq<string>, events: seq<Event>, hs: seq<Handler>)
    requires |names| <= |events| && Calls(listeners, names, events, hs)
    ensures |hs| == Times(|names|, listeners)
  {
    if names != [] {
      CallCount(listeners, names[..|names| - 1], events, hs[..|hs| - listeners]);
    }
  }

  lemma {:induction false} CollectIsResults(a: Answers, b: nat, hs: seq<Handler>)
    requires Outcomes(a, b, hs) && forall k :: 0 <= k < |hs| ==> hs[k].outcome.Some?
    ensures Collect(hs) == Results(a, b, 0, |hs|)
  {
    if hs != [] {
      CollectIsResults(a, b, hs[..|hs| - 1]);
    }
  }

  lemma {:induction false} ResultsConcat(a: Answers, b: nat, n: nat, m: nat)
    ensures Results(a, b, 0, n + m) == Results(a, b, 0, n) + Results(a, b, n, m)
  {
    if m > 0 {
      ResultsConcat(a, b, n, m - 1);
    }
  }

  /** The results of all calls in a row are the nested reference content. */
  lemma {:induction false} FlatIsNested(a: Answers, b: nat, listeners: nat, events: nat)
    ensures Results(a, b, 0, Times(events, listeners)) == BatchMessages(a, b, listeners, events)
  {
    if events > 0 {
      FlatIsNested(a, b, listeners, events - 1);
      ResultsConcat(a, b, Times(events - 1, listeners), listeners);
    }
  }

  lemma {:induction false} SettlingKeepsCalls(listeners: nat, names: seq<string>, events: seq<Event>, hs: seq<Handler>,
                                              k: nat, outcome: Settled)
    requires |names| <= |events| && k < |hs| && Calls(listeners, names, events, hs)
    ensures Calls(listeners, names, events, hs[k := hs[k].(outcome := Some(outcome))])
  {
    var hs' := hs[k := hs[k].(outcome := Some(outcome))];
    var n, cut := |names| - 1, |hs| - listeners;
    if k < cut {
      SettlingKeepsCalls(listeners, names[..n], events, hs[..cut], k, outcome);
      assert hs'[..cut] == hs[..cut][k := hs[k].(outcome := Some(outcome))];
      assert hs'[cut..] == hs[cut..];
    } else {
      assert hs'[..cut] == hs[..cut];
    }
  }

  // ---- the invariant of every run ----

  ghost predicate TaskAsExpected(a: Answers, listeners: nat, b: nat, task: Task) {
    var events := task.arrival.batch.events;
    && |task.resolved| <= |events|
    && (forall e :: 0 <= e < |task.resolved| ==> Some(task.resolved[e]) == a.names(b, e))
    && Calls(listeners, task.resolved, events, task.handlers)
    && Outcomes(a, b, task.handlers)
  }

  ghost predicate InOrder(a: Answers, listeners: nat, arrived: seq<Arrival>, processed: seq<Processed>, queue: seq<Task>) {
    && |arrived| == |processed| + |queue|
    && (forall k :: 0 <= k < |queue| ==>
          queue[k].arrival == arrived[|processed| + k] && TaskAsExpected(a, listeners, |processed| + k, queue[k]))
    && (forall b :: 0 <= b < |processed| ==> AsExpected(a, listeners, b, arrived[b], processed[b]))
  }

  ghost predicate StateInOrder(a: Answers, s: State) {
    InOrder(a, s.listeners, s.arrived, s.processed, s.queue)
  }

  lemma Dequeue(a: Answers, listeners: nat, arrived: seq<Arrival>, processed: seq<Processed>, queue: seq<Task>, p: Processed)
    requires InOrder(a, listeners, arrived, processed, queue)
    requires queue != [] && AsExpected(a, listeners, |processed|, queue[0].arrival, p)
    ensures InOrder(a, listeners, arrived, processed + [p], queue[1..])
  {
    assert queue[0].arrival == arrived[|processed| + 0];
    var queue', processed' := queue[1..], processed + [p];
    forall k | 0 <= k < |queue'|
      ensures queue'[k].arrival == arrived[|processed'| + k] && TaskAsExpected(a, listeners, |processed'| + k, queue'[k])
    {
      assert queue'[k] == queue[k + 1];
    }
  }

  lemma ReplaceHead(a: Answers, listeners: nat, arrived: seq<Arrival>, processed: seq<Processed>, queue: seq<Task>, task: Task)
    requires InOrder(a, listeners, arrived, processed, queue)
    requires queue != [] && task.arrival == queue[0].arrival && TaskAsExpected(a, listeners, |processed|, task)
    ensures InOrder(a, listeners, arrived, processed, [task] + queue[1..])
  {
    var queue' := [task] + queue[1..];
    assert forall k :: 1 <= k < |queue'| ==> queue'[k] == queue[k];
  }

  lemma Enqueue(a: Answers, listeners: nat, arrived: seq<Arrival>, processed: seq<Processed>, queue: seq<Task>, arrival: Arrival)
    requires InOrder(a, listeners, arrived, processed, queue)
    ensures InOrder(a, listeners, arrived + [arrival], processed, queue + [Task(arrival, [], [])])
  {
    var queue' := queue + [Task(arrival, [], [])];
    assert TaskAsExpected(a, listeners, |processed| + |queue|, queue'[|queue|]);
    assert forall k :: 0 <= k < |queue| ==> queue'[k] == queue[k];
  }

  lemma ResolvingIsExpected(a: Answers, listeners: nat, b: nat, task: Task, name: string)
    requires TaskAsExpected(a, listeners, b, task) && |task.resolved| < |task.arrival.batch.events|
    requires a.names(b, |task.resolved|) == Some(name)
    ensures var event := task.arrival.batch.events[|task.resolved|];
            TaskAsExpected(a, listeners, b,
                           Task(task.arrival, task.resolved + [name], task.handlers + Called(listeners, name, event)))
  {
    var event := task.arrival.batch.events[|task.resolved|];
    var resolved, handlers := task.resolved + [name], task.handlers + Called(listeners, name, event);
    assert resolved[..|resolved| - 1] == task.resolved;
    assert handlers[..|handlers| - listeners] == task.handlers;
    assert handlers[|handlers| - listeners..] == Called(listeners, name, event);
  }

  lemma LookupInOrder(a: Answers, s: State, answer: Option<string>)
    requires StateInOrder(a, s) && Enabled(s, Lookup(answer)) && Gives(a, s, Lookup(answer))
    ensures StateInOrder(a, LookedUp(s, answer))
  {
    var task, b := s.queue[0], |s.processed|;
    assert TaskAsExpected(a, s.listeners, b + 0, task);
    if NameFound(s, answer).Some? {
      ResolvingIsExpected(a, s.listeners, b, task, NameFound(s, answer).value);
      ReplaceHead(a, s.listeners, s.arrived, s.processed, s.queue, LookedUp(s, answer).queue[0]);
    } else {
      assert !Resolvable(a, b, |task.arrival.batch.events|);
      Dequeue(a, s.listeners, s.arrived, s.processed, s.queue, Aborted);
    }
  }

  lemma FinishedIsExpected(a: Answers, listeners: nat, b: nat, task: Task, id: string, client: Option<string>)
    requires TaskAsExpected(a, listeners, b, task)
    requires |task.resolved| == |task.arrival.batch.events|
    requires forall k :: 0 <= k < |task.handlers| ==> task.handlers[k].outcome.Some?
    ensures AsExpected(a, listeners, b, task.arrival, Sent(MessageOf(task, id), client))
  {
    var events := task.arrival.batch.events;
    CallCount(listeners, task.resolved, events, task.handlers);
    CollectIsResults(a, b, task.handlers);
    FlatIsNested(a, b, listeners, |events|);
    assert Resolvable(a, b, |events|) by {
      assert forall e :: 0 <= e < |events| ==> Some(task.resolved[e]) == a.names(b, e);
    }
  }

  lemma DeliverInOrder(a: Answers, s: State, id: string, selected: nat)
    requires StateInOrder(a, s) && Enabled(s, Deliver(id, selected))
    ensures StateInOrder(a, Delivered(s, id, selected))
  {
    var p := Delivered(s, id, selected).processed[|s.processed|];
    assert TaskAsExpected(a, s.listeners, |s.processed| + 0, s.queue[0]);
    FinishedIsExpected(a, s.listeners, |s.processed|, s.queue[0], id, p.client);
    hide TaskAsExpected, AsExpected, MessageOf;
    Dequeue(a, s.listeners, s.arrived, s.processed, s.queue, p);
  }

  lemma SettleInOrder(a: Answers, s: State, k: nat, outcome: Settled)
    requires StateInOrder(a, s) && Enabled(s, Settle(k, outcome)) && Gives(a, s, Settle(k, outcome))
    ensures StateInOrder(a, HandlerSettled(s, k, outcome))
  {
    var task := s.queue[0];
    assert TaskAsExpected(a, s.listeners, |s.processed| + 0, task);
    SettlingKeepsCalls(s.listeners, task.resolved, task.arrival.batch.events, task.handlers, k, outcome);
    ReplaceHead(a, s.listeners, s.arrived, s.processed, s.queue, HandlerSettled(s, k, outcome).queue[0]);
  }

  lemma StepInOrder(a: Answers, s: State, step: Step)
    requires StateInOrder(a, s) && Enabled(s, step) && Gives(a, s, step)
    ensures StateInOrder(a, Next(s, step))
  {
    hide InOrder, LookedUp, HandlerSettled, Delivered, Started, Resumed, Acked, Disconnected;
    match step
    case BatchArrives(namespace, batch) =>
      Enqueue(a, s.listeners, s.arrived, s.processed, s.queue, Arrival(namespace, batch));
    case Lookup(answer) => LookupInOrder(a, s, answer);
    case Settle(k, outcome) => SettleInOrder(a, s, k, outcome);
    case Deliver(id, selected) => DeliverInOrder(a, s, id, selected);
    case Start(client, ns) => StartedFrame(s, client, ns);
    case StartConnected(client, ns) => ResumedFrame(s, client, ns);
    case ClientAck(client, id) => AckedFrame(s, client, id);
    case Disconnect(client) => DisconnectedFrame(s, client);
    case Connect(client) =>
    case StartFailed(_, _) =>
  }

  lemma {:induction false} RunInOrder(a: Answers, trace: seq<State>, steps: seq<Step>, i: nat)
    requires IsRun(trace, steps) && i <= |steps| && RunGives(a, trace, steps, i)
    ensures StateInOrder(a, trace[i])
  {
    hide Next, InOrder, Gives;
    if i == 0 {
      InitInOrder(a, trace[0].configured, trace[0].listeners);
    } else {
      RunInOrder(a, trace, steps, i - 1);
      RunStep(trace, steps, i - 1);
      StepInOrder(a, trace[i - 1], steps[i - 1]);
    }
  }

  lemma InitInOrder(a: Answers, configured: bool, listeners: nat)
    ensures StateInOrder(a, Init(configured, listeners))
  {
  }

  lemma RunGivesBefore(a: Answers, trace: seq<State>, steps: seq<Step>, i: nat)
    requires IsRun(trace, steps) && i <= |steps| && RunGives(a, trace, steps, |steps|)
    ensures RunGives(a, trace, steps, i)
  {
  }

  /** The batches that arrived are those of the arrival steps. */
  lemma StepArrives(s: State, step: Step)
    requires Enabled(s, step)
    ensures Next(s, step).arrived == s.arrived + if step.BatchArrives? then [Arrival(step.namespace, step.batch)] else []
  {
    hide LookedUp, HandlerSettled, Delivered, Started, Resumed, Acked, Disconnected;
    match step
    case Start(client, ns) => StartedFrame(s, client, ns);
    case StartConnected(client, ns) => ResumedFrame(s, client, ns);
    case ClientAck(client, id) => AckedFrame(s, client, id);
    case Disconnect(client) => DisconnectedFrame(s, client);
    case Deliver(id, selected) => DeliveredFrame(s, id, selected);
    case Settle(k, outcome) => SettledFrame(s, k, outcome);
    case Lookup(answer) => LookedUpFrame(s, answer);
    case BatchArrives(_, _) =>
    case Connect(_) =>
    case StartFailed(_, _) =>
  }

  lemma NothingArrived(trace: seq<State>, steps: seq<Step>)
    requires IsRun(trace, steps)
    ensures trace[0].arrived == []
  {
    hide Next, Enabled;
  }

  lemma RunArrives(trace: seq<State>, steps: seq<Step>, i: nat)
    requires IsRun(trace, steps) && i < |steps|
    ensures trace[i + 1].arrived
         == trace[i].arrived + if steps[i].BatchArrives? then [Arrival(steps[i].namespace, steps[i].batch)] else []
  {
    RunStep(trace, steps, i);
    StepArrives(trace[i], steps[i]);
    hide Next, Enabled;
  }

  /**
   * Every run gives its look-ups and calls answers, each once, such that at every moment the b-th thing the
   * queue has produced is what the b-th batch to arrive becomes by its own answers: nothing when one of its
   * look-ups gave nothing, and otherwise one message with the results of its calls, event by event and
   * listener by listener, in whatever order they settled and whatever else happened in between.
   */
  lemma BatchesInArrivalOrder(trace: seq<State>, steps: seq<Step>) returns (a: Answers)
    requires IsRun(trace, steps)
    ensures RunGives(a, trace, steps, |steps|)
    ensures forall i :: 0 <= i < |trace| ==> StateInOrder(a, trace[i])
    ensures trace[0].arrived == []
    ensures forall i :: 0 <= i < |steps| ==>
      trace[i + 1].arrived
      == trace[i].arrived + if steps[i].BatchArrives? then [Arrival(steps[i].namespace, steps[i].batch)] else []
  {
    NothingArrived(trace, steps);
    forall i | 0 <= i < |steps|
      ensures trace[i + 1].arrived
           == trace[i].arrived + if steps[i].BatchArrives? then [Arrival(steps[i].namespace, steps[i].batch)] else []
    {
      RunArrives(trace, steps, i);
    }
    a := EveryRunGives(trace, steps, |steps|);
    hide Next, Enabled, StateInOrder, RunGives;
    forall i | 0 <= i < |trace| ensures StateInOrder(a, trace[i]) {
      RunGivesBefore(a, trace, steps, i);
      RunInOrder(a, trace, steps, i);
    }
  }

  // ---- the cache of subscription names changes nothing ----

  /** Upstream has one answer for each subscription. */
  ghost predicate FixedNames(names: string -> Option<string>, trace: seq<State>, steps: seq<Step>) {
    && IsRun(trace, steps)
    && forall i :: 0 <= i < |steps| && steps[i].Lookup? ==> Truly(names, trace[i], steps[i].answer)
  }

  ghost predicate Truly(names: string -> Option<string>, s: State, answer: Option<string>)
    requires s.queue != [] && |s.queue[0].resolved| < |s.queue[0].arrival.batch.events|
  {
    answer == names(s.queue[0].arrival.batch.events[|s.queue[0].resolved|].subId)
  }

  ghost predicate Agrees(names: string -> Option<string>, cache: map<string, string>) {
    forall id :: id in cache ==> names(id) == Some(cache[id])
  }

  lemma StepAgrees(names: string -> Option<string>, s: State, step: Step)
    requires Agrees(names, s.subscriptionNames) && Enabled(s, step)
    requires step.Lookup? ==> Truly(names, s, step.answer)
    ensures Agrees(names, Next(s, step).subscriptionNames)
  {
    hide Started, Resumed, Acked, Disconnected, Delivered, HandlerSettled;
    match step
    case Start(client, ns) => StartedFrame(s, client, ns);
    case StartConnected(client, ns) => ResumedFrame(s, client, ns);
    case ClientAck(client, id) => AckedFrame(s, client, id);
    case Disconnect(client) => DisconnectedFrame(s, client);
    case Deliver(id, selected) => DeliveredFrame(s, id, selected);
    case Settle(k, outcome) => SettledFrame(s, k, outcome);
    case Lookup(_) =>
    case BatchArrives(_, _) =>
    case Connect(_) =>
    case StartFailed(_, _) =>
  }

  lemma SettledFrame(s: State, k: nat, outcome: Settled)
    requires Enabled(s, Settle(k, outcome))
    ensures HandlerSettled(s, k, outcome) == s.(queue := HandlerSettled(s, k, outcome).queue)
  {
  }

  lemma {:induction false} CacheAgrees(names: string -> Option<string>, trace: seq<State>, steps: seq<Step>, i: nat)
    requires FixedNames(names, trace, steps) && i < |trace|
    ensures Agrees(names, trace[i].subscriptionNames)
  {
    hide Next, Enabled, Agrees;
    if i == 0 {
      NothingCached(names, trace[0].configured, trace[0].listeners);
    } else {
      CacheAgrees(names, trace, steps, i - 1);
      RunStep(trace, steps, i - 1);
      StepAgrees(names, trace[i - 1], steps[i - 1]);
    }
  }

  lemma NothingCached(names: string -> Option<string>, configured: bool, listeners: nat)
    ensures Agrees(names, Init(configured, listeners).subscriptionNames)
  {
  }

  function Uncached(s: State): State {
    s.(subscriptionNames := map[])
  }

  /** The same proxy, forgetting every subscription name it learned as soon as it has used it. */
  function NextUncached(s: State, step: Step): State
    requires Enabled(Uncached(s), step)
  {
    Uncached(Next(Uncached(s), step))
  }

  lemma LookupUncached(names: string -> Option<string>, s: State, answer: Option<string>)
    requires Agrees(names, s.subscriptionNames) && Enabled(s, Lookup(answer)) && Truly(names, s, answer)
    ensures Enabled(Uncached(s), Lookup(answer))
    ensures Uncached(LookedUp(s, answer)) == NextUncached(Uncached(s), Lookup(answer))
  {
    var subId := s.queue[0].arrival.batch.events[|s.queue[0].resolved|].subId;
    assert subId in s.subscriptionNames ==> answer == Some(s.subscriptionNames[subId]);
  }

  lemma DisconnectUncached(s: State, client: string)
    requires client in s.connected
    ensures Uncached(Disconnected(s, client)) == NextUncached(Uncached(s), Disconnect(client))
  {
    hide Emptied, Keeping, CloseCalls, NackCalls, OfNamespace, ClientsLeft, SocketsLeft;
  }

  lemma DeliverUncached(s: State, id: string, selected: nat)
    requires Enabled(s, Deliver(id, selected))
    ensures Enabled(Uncached(s), Deliver(id, selected))
    ensures Uncached(Delivered(s, id, selected)) == NextUncached(Uncached(s), Deliver(id, selected))
  {
  }

  lemma AckUncached(s: State, client: string, messageId: Option<string>)
    requires client in s.connected
    ensures Uncached(Acked(s, client, messageId)) == NextUncached(Uncached(s), ClientAck(client, messageId))
  {
  }

  lemma StartUncached(s: State, client: string, ns: string)
    requires client in s.connected
    ensures Uncached(Started(s, client, ns)) == NextUncached(Uncached(s), Start(client, ns))
  {
  }

  lemma ResumeUncached(s: State, client: string, ns: string)
    requires (client, ns) in s.starting
    ensures Uncached(Resumed(s, client, ns)) == NextUncached(Uncached(s), StartConnected(client, ns))
  {
  }

  lemma StepUncached(names: string -> Option<string>, s: State, step: Step)
    requires Agrees(names, s.subscriptionNames) && Enabled(s, step)
    requires step.Lookup? ==> Truly(names, s, step.answer)
    ensures Enabled(Uncached(s), step)
    ensures Uncached(Next(s, step)) == NextUncached(Uncached(s), step)
  {
    hide Agrees, LookedUp, Delivered, Started, Resumed, Acked, Disconnected;
    match step
    case Lookup(answer) => LookupUncached(names, s, answer);
    case Disconnect(client) => DisconnectUncached(s, client);
    case Deliver(id, selected) => DeliverUncached(s, id, selected);
    case ClientAck(client, messageId) => AckUncached(s, client, messageId);
    case Start(client, ns) => StartUncached(s, client, ns);
    case StartConnected(client, ns) => ResumeUncached(s, client, ns);
    case Connect(_) =>
    case StartFailed(_, _) =>
    case BatchArrives(_, _) =>
    case Settle(_, _) =>
  }

  /** When upstream names are fixed, a run with the cache, seen without it, is a run of the proxy that has no cache. */
  lemma CacheChangesNothing(names: string -> Option<string>, trace: seq<State>, steps: seq<Step>, i: nat)
    requires FixedNames(names, trace, steps) && i < |steps|
    ensures Enabled(Uncached(trace[i]), steps[i])
    ensures Uncached(trace[i + 1]) == NextUncached(Uncached(trace[i]), steps[i])
  {
    CacheAgrees(names, trace, steps, i);
    StepUncached(names, trace[i], steps[i]);
  }

  // ---- names once found ----

  /** The cache has the name for the subscription. */
  ghost predicate Caches(s: State, subId: string, name: string) {
    subId in s.subscriptionNames && s.subscriptionNames[subId] == name
  }

  lemma LookupCaches(s: State, answer: Option<string>, subId: string, name: string)
    requires Enabled(s, Lookup(answer))
    ensures NameFound(s, answer) == Some(name) ==> Caches(LookedUp(s, answer), Sought(s), name)
    ensures Caches(s, subId, name) ==> Caches(LookedUp(s, answer), subId, name)
  {
  }

  lemma StepCaches(s: State, step: Step, subId: string, name: string)
    requires Enabled(s, step) && Caches(s, subId, name)
    ensures Caches(Next(s, step), subId, name)
  {
    hide LookedUp, HandlerSettled, Delivered, Started, Resumed, Acked, Disconnected;
    match step
    case Start(client, ns) => StartedFrame(s, client, ns);
    case StartConnected(client, ns) => ResumedFrame(s, client, ns);
    case ClientAck(client, id) => AckedFrame(s, client, id);
    case Disconnect(client) => DisconnectedFrame(s, client);
    case Deliver(id, selected) => DeliveredFrame(s, id, selected);
    case Settle(k, outcome) => SettledFrame(s, k, outcome);
    case Lookup(answer) => LookupCaches(s, answer, subId, name);
    case BatchArrives(_, _) =>
    case Connect(_) =>
    case StartFailed(_, _) =>
  }

  lemma {:induction false} RunCaches(trace: seq<State>, steps: seq<Step>, i: nat, j: nat, subId: string, name: string)
    requires IsRun(trace, steps) && i <= j < |trace| && Caches(trace[i], subId, name)
    ensures Caches(trace[j], subId, name)
  {
    hide Next, Enabled, Caches;
    if i < j {
      RunCaches(trace, steps, i, j - 1, subId, name);
      RunStep(trace, steps, j - 1);
      StepCaches(trace[j - 1], steps[j - 1], subId, name);
    }
  }

  /**
   * A name once found is the name for ever: every later look-up of the subscription adds it to the names of
   * its batch and goes on with the next event, whatever upstream answers by then, unknown and failed included.
   */
  lemma FoundNameStays(trace: seq<State>, steps: seq<Step>, i: nat, j: nat, name: string)
    requires IsRun(trace, steps) && i < j < |steps| && steps[i].Lookup? && steps[j].Lookup?
    requires Enabled(trace[i], steps[i]) && Enabled(trace[j], steps[j]) && Sought(trace[i]) == Sought(trace[j])
    requires NameFound(trace[i], steps[i].answer) == Some(name)
    ensures trace[j + 1].queue != [] && trace[j + 1].queue[0].resolved == trace[j].queue[0].resolved + [name]
    ensures trace[j + 1].processed == trace[j].processed
  {
    LookupCaches(trace[i], steps[i].answer, "", "");
    RunStep(trace, steps, i);
    RunCaches(trace, steps, i + 1, j, Sought(trace[i]), name);
    RunStep(trace, steps, j);
    CachedIsUsed(trace[j], steps[j].answer, name);
  }

  lemma CachedIsUsed(s: State, answer: Option<string>, name: string)
    requires Enabled(s, Lookup(answer)) && Caches(s, Sought(s), name)
    ensures LookedUp(s, answer).queue != [] && LookedUp(s, answer).queue[0].resolved == s.queue[0].resolved + [name]
    ensures LookedUp(s, answer).processed == s.processed
  {
  }
}
