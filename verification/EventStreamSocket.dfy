/**
 * The websocket of one event stream, with its reconnects: EventStreamSocket in
 * src/event-stream/event-stream.service.ts. Time is left out: a pending timer may fire at any moment.
 */
module SocketMachine {
  import opened Picking
  import opened Wrappers

  datatype Frame = Listen(topic: string) | ListenReplies | Ack(topic: string, batch: Option<int>) | Nack(topic: string, batch: Option<int>)

  datatype Logged = Connected | Restored | Closed | Disconnected

  /** The state of the websocket made last. A closing one was terminated and has not reported it yet. */
  datatype Ready = CONNECTING | OPEN | CLOSING | CLOSED

  datatype State = State(ws: Ready, timers: nat, disconnectDetected: bool, closeRequested: bool,
                         sent: seq<Frame>, log: seq<Logged>, inits: nat, opens: nat, drops: nat) {

    /** The websocket may still open, receive or report its close. */
    predicate Live() {
      ws != CLOSED
    }
  }

  /**
   * What happens to the socket. A websocket that is not closed may report its close at any time, for a lost
   * connection, a failed one, or its termination by close() or by a missed pong.
   */
  datatype Step = Opens | ReportsClose | TimerFires | PongMissed | CallsClose | Sends(ack: bool, batch: Option<int>)

  function StreamTopic(topic: string, namespace: string): string {
    topic + "/" + namespace
  }

  function Init(s: State): State {
    s.(disconnectDetected := false, closeRequested := false, ws := CONNECTING, inits := s.inits + 1)
  }

  const NEW := Init(State(CLOSED, 0, false, false, [], [], 0, 0, 0))

  predicate Enabled(s: State, step: Step) {
    match step
    case Opens => s.ws == CONNECTING
    case ReportsClose => s.Live()
    case TimerFires => s.timers > 0
    case PongMissed => s.ws == OPEN
    case CallsClose => true
    case Sends(_, _) => true
  }

  function Terminated(ws: Ready): Ready {
    if ws == CLOSED then CLOSED else CLOSING
  }

  function Next(s: State, step: Step, topic: string): State
    requires Enabled(s, step)
  {
    match step
    case Opens =>
      s.(ws := OPEN, opens := s.opens + 1, disconnectDetected := false,
         log := s.log + [if s.disconnectDetected then Restored else Connected], sent := s.sent + [Listen(topic), ListenReplies])
    case ReportsClose =>
      if s.closeRequested then s.(ws := CLOSED, log := s.log + [Closed])
      else s.(ws := CLOSED, log := s.log + [Disconnected], disconnectDetected := true, timers := s.timers + 1, drops := s.drops + 1)
    case TimerFires => Init(s.(timers := s.timers - 1))
    case PongMissed => s.(ws := CLOSING)
    case CallsClose => s.(closeRequested := true, ws := Terminated(s.ws))
    case Sends(ack, batch) =>
      // a websocket that is not open refuses to send
      if s.ws == OPEN then s.(sent := s.sent + [if ack then Ack(topic, batch) else Nack(topic, batch)]) else s
  }

  /** A run: the steps one after the other, where one that cannot happen does nothing. */
  function Run(s: State, steps: seq<Step>, topic: string): State {
    if steps == [] then s
    else
      var before, step := Run(s, steps[..|steps| - 1], topic), steps[|steps| - 1];
      if Enabled(before, step) then Next(before, step, topic) else before
  }

  // ---- what every run keeps ----

  ghost predicate Inv(s: State, topic: string) {
    Connects(s) && Logs(s) && Greeted(s, topic)
  }

  /** How the websocket, the timer and the flags go together. */
  ghost predicate Connects(s: State) {
    // one websocket that may live, or one pending reconnect, never both
    && s.timers <= 1
    && (s.timers == 1 ==> !s.Live())
    // every unrequested drop has led to one new websocket, or is about to
    && s.inits + s.timers == 1 + s.drops
    && (s.disconnectDetected <==> s.timers == 1)
    && (!s.Live() && s.timers == 0 ==> s.closeRequested)
    && s.opens <= s.inits && (s.ws == CONNECTING ==> s.opens < s.inits)
    && Restored !in s.log
  }

  /** One line for each connection, one for each drop, and one for each close that was asked for; a websocket closes once. */
  ghost predicate Logs(s: State) {
    var lines := multiset(s.log);
    && lines[Connected] == s.opens && lines[Disconnected] == s.drops
    && lines[Closed] + lines[Disconnected] + (if s.Live() then 1 else 0) == s.inits
  }

  /** A listen and a listenreplies for every connection, by turns and side by side; all else that was sent are acks and nacks. */
  ghost predicate Greeted(s: State, topic: string) {
    && (exists frames :: Picks(s.sent, (f: Frame) => !f.Ack? && !f.Nack?, frames) && Greetings(frames, topic, s.opens))
    && SideBySide(s.sent)
  }

  ghost predicate Greetings(frames: seq<Frame>, topic: string, opens: nat) {
    && |frames| == 2 * opens
    && forall k :: 0 <= k < |frames| ==> frames[k] == if k % 2 == 0 then Listen(topic) else ListenReplies
  }

  ghost predicate SideBySide(frames: seq<Frame>) {
    forall i :: 0 <= i < |frames| && frames[i].Listen? ==> i + 1 < |frames| && frames[i + 1].ListenReplies?
  }

  lemma StepLogs(s: State, step: Step, topic: string)
    requires Connects(s) && Logs(s) && Enabled(s, step)
    ensures Logs(Next(s, step, topic))
  {
  }

  lemma OneMoreGreeting(frames: seq<Frame>, topic: string, opens: nat)
    requires Greetings(frames, topic, opens)
    ensures Greetings(frames + [Listen(topic)] + [ListenReplies], topic, opens + 1)
  {
  }

  lemma StillSideBySide(frames: seq<Frame>, topic: string, frame: Frame)
    requires SideBySide(frames)
    ensures SideBySide(frames + [Listen(topic), ListenReplies])
    ensures !frame.Listen? ==> SideBySide(frames + [frame])
  {
  }

  lemma StepConnects(s: State, step: Step, topic: string)
    requires Connects(s) && Enabled(s, step)
    ensures Connects(Next(s, step, topic))
  {
  }

  lemma IsGreeted(s: State, topic: string, frames: seq<Frame>)
    requires Picks(s.sent, (f: Frame) => !f.Ack? && !f.Nack?, frames) && Greetings(frames, topic, s.opens) && SideBySide(s.sent)
    ensures Greeted(s, topic)
  {
  }

  lemma TwoMore(frames: seq<Frame>, first: Frame, second: Frame)
    ensures frames + [first, second] == frames + [first] + [second]
  {
  }

  lemma OpensGreets(s: State, topic: string)
    requires Greeted(s, topic)
    ensures Greeted(s.(sent := s.sent + [Listen(topic), ListenReplies], opens := s.opens + 1), topic)
  {
    var frames :| Picks(s.sent, (f: Frame) => !f.Ack? && !f.Nack?, frames) && Greetings(frames, topic, s.opens);
    assert SideBySide(s.sent);
    hide *;
    PickNext(s.sent, Listen(topic), (f: Frame) => !f.Ack? && !f.Nack?, frames);
    PickNext(s.sent + [Listen(topic)], ListenReplies, (f: Frame) => !f.Ack? && !f.Nack?, frames + [Listen(topic)]);
    OneMoreGreeting(frames, topic, s.opens);
    StillSideBySide(s.sent, topic, ListenReplies);
    TwoMore(s.sent, Listen(topic), ListenReplies);
    IsGreeted(s.(sent := s.sent + [Listen(topic), ListenReplies], opens := s.opens + 1), topic,
              frames + [Listen(topic)] + [ListenReplies]);
  }

  lemma SendsGreetNothing(s: State, topic: string, frame: Frame)
    requires Greeted(s, topic) && (frame.Ack? || frame.Nack?)
    ensures Greeted(s.(sent := s.sent + [frame]), topic)
  {
    var frames :| Picks(s.sent, (f: Frame) => !f.Ack? && !f.Nack?, frames) && Greetings(frames, topic, s.opens);
    assert SideBySide(s.sent);
    hide *;
    PickNext(s.sent, frame, (f: Frame) => !f.Ack? && !f.Nack?, frames);
    StillSideBySide(s.sent, topic, frame);
    IsGreeted(s.(sent := s.sent + [frame]), topic, frames);
  }

  lemma SameGreeted(s: State, s': State, topic: string)
    requires Greeted(s, topic) && s'.sent == s.sent && s'.opens == s.opens
    ensures Greeted(s', topic)
  {
  }

  lemma StepGreets(s: State, step: Step, topic: string)
    requires Greeted(s, topic) && Enabled(s, step)
    ensures Greeted(Next(s, step, topic), topic)
  {
    hide Greeted;
    if step.Opens? {
      OpensGreets(s, topic);
      SameGreeted(s.(sent := s.sent + [Listen(topic), ListenReplies], opens := s.opens + 1), Next(s, step, topic), topic);
    } else if step.Sends? && s.ws == OPEN {
      SendsGreetNothing(s, topic, if step.ack then Ack(topic, step.batch) else Nack(topic, step.batch));
    } else {
      SameGreeted(s, Next(s, step, topic), topic);
    }
  }

  lemma StepKeepsInv(s: State, step: Step, topic: string)
    requires Inv(s, topic) && Enabled(s, step)
    ensures Inv(Next(s, step, topic), topic)
  {
    hide Connects, Logs, Greeted, Next, Enabled;
    StepConnects(s, step, topic);
    StepLogs(s, step, topic);
    StepGreets(s, step, topic);
  }

  lemma NewKeepsInv(topic: string)
    ensures Inv(NEW, topic)
  {
    NothingPicked((f: Frame) => !f.Ack? && !f.Nack?);
    hide Picks;
    assert Greetings([], topic, 0);
  }

  /**
   * In every run there is at most one of a live websocket and a pending reconnect; each drop that was not
   * asked for makes exactly one new websocket; the greetings sent are those of the connections made, each
   * whole; and the log has a line for every connection, drop and close, and never says that one was restored.
   */
  lemma {:induction false} EveryRunKeepsInv(steps: seq<Step>, topic: string)
    ensures Inv(Run(NEW, steps, topic), topic)
  {
    hide Inv, Next, Enabled;
    if steps == [] {
      NewKeepsInv(topic);
    } else {
      EveryRunKeepsInv(steps[..|steps| - 1], topic);
      var before, step := Run(NEW, steps[..|steps| - 1], topic), steps[|steps| - 1];
      if Enabled(before, step) {
        StepKeepsInv(before, step, topic);
      }
    }
  }

  /**
   * What a socket sends in any run, apart from acks and nacks: twice as many frames as it had connections,
   * by turns a listen for the stream of its namespace and a listenreplies.
   */
  lemma EveryConnectionListens(steps: seq<Step>, topic: string, namespace: string) returns (frames: seq<Frame>)
    ensures var s := Run(NEW, steps, StreamTopic(topic, namespace));
            && Picks(s.sent, (f: Frame) => !f.Ack? && !f.Nack?, frames)
            && |frames| == 2 * s.opens
    ensures forall k :: 0 <= k < |frames| ==> frames[k] == if k % 2 == 0 then Listen(topic + "/" + namespace) else ListenReplies
  {
    EveryRunKeepsInv(steps, StreamTopic(topic, namespace));
    var s := Run(NEW, steps, StreamTopic(topic, namespace));
    hide Run, Picks;
    frames :| Picks(s.sent, (f: Frame) => !f.Ack? && !f.Nack?, frames) && Greetings(frames, StreamTopic(topic, namespace), s.opens);
  }

  /** After a missed pong nothing is sent until the websocket has reported its close and another one has opened. */
  lemma {:induction false} MissedPongSilences(s: State, steps: seq<Step>, topic: string)
    requires s.ws == OPEN
    requires forall i :: 0 <= i < |steps| ==> !steps[i].ReportsClose? && !steps[i].TimerFires?
    ensures var s' := Run(Next(s, PongMissed, topic), steps, topic); s'.ws == CLOSING && s'.sent == s.sent
  {
    if steps != [] {
      MissedPongSilences(s, steps[..|steps| - 1], topic);
    }
  }

  // ---- close ----

  /** Closed for good: the close was asked for and nothing is left that could undo it. */
  predicate Finished(s: State) {
    s.closeRequested && s.timers == 0 && s.ws in {CLOSING, CLOSED}
  }

  lemma {:induction false} FinishedStays(s: State, steps: seq<Step>, topic: string)
    requires Finished(s)
    ensures Finished(Run(s, steps, topic)) && Run(s, steps, topic).inits == s.inits
  {
    if steps != [] {
      FinishedStays(s, steps[..|steps| - 1], topic);
    }
  }

  /** No run from the state connects again. */
  ghost predicate NeverReconnects(s: State, topic: string) {
    forall steps :: Run(s, steps, topic).inits == s.inits
  }

  /** close() is the end of the socket exactly when no reconnect was pending; otherwise the timer undoes it. */
  lemma CloseIsFinalIff(s: State, topic: string)
    ensures NeverReconnects(Next(s, CallsClose, topic), topic) <==> s.timers == 0
  {
    var closed := Next(s, CallsClose, topic);
    if s.timers == 0 {
      forall steps ensures Run(closed, steps, topic).inits == closed.inits {
        FinishedStays(closed, steps, topic);
      }
    } else {
      var steps := [TimerFires];
      assert steps[..0] == [];
      assert Run(closed, steps, topic) == Next(closed, TimerFires, topic);
      assert Run(closed, steps, topic).inits == closed.inits + 1;
    }
  }

  /** In every run, close() on a websocket that has not closed is final, and on a closed one unless a reconnect is pending. */
  lemma CloseInRun(steps: seq<Step>, topic: string)
    ensures var s := Run(NEW, steps, topic);
            && (s.Live() ==> NeverReconnects(Next(s, CallsClose, topic), topic))
            && (!s.Live() ==> (NeverReconnects(Next(s, CallsClose, topic), topic) <==> s.timers != 1))
  {
    EveryRunKeepsInv(steps, topic);
    CloseIsFinalIff(Run(NEW, steps, topic), topic);
  }

  // ---- the socket ----

  class EventStreamSocket {
    const topic: string
    const namespace: string
    var ws: Ready
    var timers: nat
    var disconnectDetected: bool
    var closeRequested: bool
    ghost var sent: seq<Frame>
    ghost var log: seq<Logged>
    ghost var inits: nat
    ghost var opens: nat
    ghost var drops: nat

    ghost function View(): State
      reads this
    {
      State(ws, timers, disconnectDetected, closeRequested, sent, log, inits, opens, drops)
    }

    constructor (topic: string, namespace: string)
      ensures this.topic == topic && this.namespace == namespace
      ensures View() == NEW
    {
      this.topic, this.namespace := topic, namespace;
      ws, timers, disconnectDetected, closeRequested := CLOSED, 0, false, false;
      sent, log, inits, opens, drops := [], [], 0, 0, 0;
      new;
      InitSocket();
    }

    method InitSocket()
      modifies this
      ensures View() == Init(old(View()))
    {
      disconnectDetected := false;
      closeRequested := false;
      ws := CONNECTING;
      inits := inits + 1;
    }

    method OnOpen()
      requires Enabled(View(), Opens)
      modifies this
      ensures View() == Next(old(View()), Opens, StreamTopic(topic, namespace))
      ensures sent == old(sent) + [Listen(topic + "/" + namespace), ListenReplies]
    {
      ws := OPEN;
      opens := opens + 1;
      if disconnectDetected {
        disconnectDetected := false;
        log := log + [Restored];
      } else {
        log := log + [Connected];
      }
      Produce(Listen(StreamTopic(topic, namespace)));
      Produce(ListenReplies);
      assert [Listen(StreamTopic(topic, namespace))] + [ListenReplies] == [Listen(topic + "/" + namespace), ListenReplies];
    }

    method OnClose()
      requires Enabled(View(), ReportsClose)
      modifies this
      ensures View() == Next(old(View()), ReportsClose, StreamTopic(topic, namespace))
    {
      ws := CLOSED;
      if closeRequested {
        log := log + [Closed];
      } else {
        disconnectDetected := true;
        log := log + [Disconnected];
        timers := timers + 1;
        drops := drops + 1;
      }
    }

    method OnTimer()
      requires Enabled(View(), TimerFires)
      modifies this
      ensures View() == Next(old(View()), TimerFires, StreamTopic(topic, namespace))
    {
      timers := timers - 1;
      InitSocket();
    }

    method Produce(frame: Frame)
      modifies this`sent
      ensures sent == if ws == OPEN then old(sent) + [frame] else old(sent)
    {
      if ws == OPEN {
        sent := sent + [frame];
      }
    }

    method SendAck(batch: Option<int>)
      modifies this`sent
      ensures View() == Next(old(View()), Sends(true, batch), StreamTopic(topic, namespace))
      ensures sent == old(sent) + if ws == OPEN then [Ack(topic + "/" + namespace, batch)] else []
    {
      Produce(Ack(StreamTopic(topic, namespace), batch));
    }

    method SendNack(batch: Option<int>)
      modifies this`sent
      ensures View() == Next(old(View()), Sends(false, batch), StreamTopic(topic, namespace))
      ensures sent == old(sent) + if ws == OPEN then [Nack(topic + "/" + namespace, batch)] else []
    {
      Produce(Nack(StreamTopic(topic, namespace), batch));
    }

    method Close()
      modifies this
      ensures View() == Next(old(View()), CallsClose, StreamTopic(topic, namespace))
    {
      closeRequested := true;
      ws := Terminated(ws);
    }
  }
}
