/** What single handlers do to messages and sockets, exactly, and what follows for whole runs. */
module ProxyProperties {
  import opened Picking
  import opened Wrappers
  import opened ProxyMachine
  import opened ProxyInvariants
  import opened ProxyLists

  // ---- every answer belongs to the step that removes the message ----

  lemma {:induction false} WithoutIdLength(msgs: seq<BatchMessage>, id: string)
    requires DistinctIds(msgs)
    ensures |WithoutId(msgs, id)| == if exists m :: m in msgs && m.id == id then |msgs| - 1 else |msgs|
  {
    if msgs != [] {
      var front, last := msgs[..|msgs| - 1], msgs[|msgs| - 1];
      assert msgs == front + [last];
      WithoutIdLength(front, id);
      if last.id == id {
        assert last in msgs;
        forall m | m in front ensures m.id != id {
          var i :| 0 <= i < |front| && front[i] == m;
          assert msgs[i].id != msgs[|msgs| - 1].id;
        }
      }
    }
  }

  lemma AckOfNothing(s: State, client: string, id: string)
    ensures Acked(s, client, None) == s
    ensures (forall m' :: InFlight(s.awaitingAck, client, m') ==> m'.id != id) ==> Acked(s, client, Some(id)) == s
  {
    if client in s.awaitingAck && FindId(s.awaitingAck[client], id).Some? {
      assert InFlight(s.awaitingAck, client, FindId(s.awaitingAck[client], id).value);
    }
  }

  lemma AckOfHeld(s: State, client: string, m: BatchMessage)
    requires Structural(s) && Lifecycle(s) && InFlight(s.awaitingAck, client, m)
    ensures m.namespace in s.sockets
    ensures Acked(s, client, Some(m.id)) == s.(
              awaitingAck := s.awaitingAck[client := WithoutId(s.awaitingAck[client], m.id)],
              upstream := s.upstream + if |s.awaitingAck[client]| == 1 then [Ack(s.sockets[m.namespace], client, m)] else [])
  {
    var msgs := s.awaitingAck[client];
    SameIdSameMessage(msgs, m, FindId(msgs, m.id).value);
    WithoutIdLength(msgs, m.id);
    hide Lifecycle, InFlight, WithoutId;
  }

  /**
   * The ack rule. Acking no id, or one the client does not hold, changes nothing. Acking one it holds removes
   * that message and no other, and reaches upstream exactly when the client held nothing else.
   */
  lemma AckRule(s: State, client: string, id: string, m: BatchMessage)
    requires Structural(s) && Lifecycle(s)
    ensures Acked(s, client, None) == s
    ensures (forall m' :: InFlight(s.awaitingAck, client, m') ==> m'.id != id) ==>
      Acked(s, client, Some(id)) == s
    ensures InFlight(s.awaitingAck, client, m) && m.id == id ==>
      var s' := Acked(s, client, Some(id));
      && (forall c, m' :: InFlight(s'.awaitingAck, c, m') <==> InFlight(s.awaitingAck, c, m') && m' != m)
      && m.namespace in s.sockets
      && s'.upstream == s.upstream +
           (if |s.awaitingAck[client]| == 1 then [Ack(s.sockets[m.namespace], client, m)] else [])
  {
    AckOfNothing(s, client, id);
    if InFlight(s.awaitingAck, client, m) && m.id == id {
      AckOfHeld(s, client, m);
      OnlyOneTakenOff(s.awaitingAck, client, m);
    }
    hide Acked, Structural, Lifecycle, WithoutId, InFlight;
  }

  /** Taking one id off the list of its holder takes one message out of flight. */
  lemma OnlyOneTakenOff(awaiting: map<string, seq<BatchMessage>>, client: string, m: BatchMessage)
    requires HeldOnce(awaiting) && InFlight(awaiting, client, m)
    ensures var awaiting' := awaiting[client := WithoutId(awaiting[client], m.id)];
            forall c, m' :: InFlight(awaiting', c, m') <==> InFlight(awaiting, c, m') && m' != m
  {
    var awaiting' := awaiting[client := WithoutId(awaiting[client], m.id)];
    forall c, m' ensures InFlight(awaiting', c, m') <==> InFlight(awaiting, c, m') && m' != m {
      if c == client && m' in awaiting[client] && m'.id == m.id {
        SameIdSameMessage(awaiting[client], m, m');
      }
    }
  }

  lemma SameIdSameMessage(msgs: seq<BatchMessage>, m: BatchMessage, m': BatchMessage)
    requires DistinctIds(msgs) && m in msgs && m' in msgs && m.id == m'.id
    ensures m == m'
  {
    var i :| 0 <= i < |msgs| && msgs[i] == m;
    var j :| 0 <= j < |msgs| && msgs[j] == m';
  }

  lemma WithoutFirst(first: BatchMessage, second: BatchMessage)
    requires first.id != second.id
    ensures WithoutId([first, second], first.id) == [second]
  {
    assert [first, second][..1] == [first];
    assert WithoutId([first], first.id) == [];
  }

  /**
   * A client with two batches in flight that acks both gets one ack through: the first is taken off the
   * list and never reported, although nothing of its batch is left.
   */
  lemma FirstOfTwoAcksIsLost(s: State, client: string, first: BatchMessage, second: BatchMessage)
    requires Structural(s) && Lifecycle(s)
    requires client in s.awaitingAck && s.awaitingAck[client] == [first, second]
    ensures var s1 := Acked(s, client, Some(first.id));
            var s2 := Acked(s1, client, Some(second.id));
            && second.namespace in s.sockets
            && s1.upstream == s.upstream
            && s2.upstream == s.upstream + [Ack(s.sockets[second.namespace], client, second)]
            && s2.awaitingAck[client] == []
  {
    var s1 := Acked(s, client, Some(first.id));
    assert first.id != second.id by {
      assert s.awaitingAck[client][0].id != s.awaitingAck[client][1].id;
    }
    AckFirst(s, client, first, second);
    AckIsStructural(s, client, Some(first.id));
    AckKeepsLifecycle(s, client, Some(first.id));
    AckLast(s1, client, second);
  }

  lemma AckFirst(s: State, client: string, first: BatchMessage, second: BatchMessage)
    requires client in s.awaitingAck && s.awaitingAck[client] == [first, second] && first.id != second.id
    ensures Acked(s, client, Some(first.id)) == s.(awaitingAck := s.awaitingAck[client := [second]])
  {
    assert FindId([first, second], first.id) == Some(first);
    WithoutFirst(first, second);
    assert s.upstream + [] == s.upstream;
  }

  lemma AckLast(s: State, client: string, m: BatchMessage)
    requires Structural(s)
    requires client in s.awaitingAck && s.awaitingAck[client] == [m]
    ensures m.namespace in s.sockets
    ensures Acked(s, client, Some(m.id)) == s.(awaitingAck := s.awaitingAck[client := []],
                                               upstream := s.upstream + [Ack(s.sockets[m.namespace], client, m)])
  {
    assert InFlight(s.awaitingAck, client, m);
    assert FindId([m], m.id) == Some(m);
    assert WithoutId([m], m.id) == [];
  }

  /** Acking a message takes it from its place and leaves the others in their order. */
  lemma AckTakesOut(s: State, client: string, before: seq<BatchMessage>, m: BatchMessage, after: seq<BatchMessage>)
    requires Lifecycle(s) && client in s.awaitingAck && s.awaitingAck[client] == before + [m] + after
    ensures Acked(s, client, Some(m.id)).awaitingAck == s.awaitingAck[client := before + after]
  {
    var msgs := s.awaitingAck[client];
    assert msgs[|before|] == m;
    LeftOut(msgs, before, m, after);
    hide Lifecycle, WithoutId;
  }

  lemma LeftOut(msgs: seq<BatchMessage>, before: seq<BatchMessage>, m: BatchMessage, after: seq<BatchMessage>)
    requires DistinctIds(msgs) && msgs == before + [m] + after
    ensures WithoutId(msgs, m.id) == before + after
  {
    OthersDiffer(msgs, before, m, after);
    hide *;
    WithoutIdPicks(msgs, m.id);
    PicksAllBut(before, m, after, (x: BatchMessage) => x.id != m.id);
    PicksUnique(msgs, (x: BatchMessage) => x.id != m.id, WithoutId(msgs, m.id), before + after);
  }

  lemma OthersDiffer(msgs: seq<BatchMessage>, before: seq<BatchMessage>, m: BatchMessage, after: seq<BatchMessage>)
    requires DistinctIds(msgs) && msgs == before + [m] + after
    ensures (forall x :: x in before ==> x.id != m.id) && (forall x :: x in after ==> x.id != m.id)
  {
    var n := |before|;
    assert msgs[n] == m;
    forall x | x in before ensures x.id != m.id {
      var i :| 0 <= i < n && before[i] == x;
      assert msgs[i] == x;
    }
    forall x | x in after ensures x.id != m.id {
      var i :| 0 <= i < |after| && after[i] == x;
      assert msgs[n + 1 + i] == x;
    }
  }

  // ---- disconnection ----

  /** A disconnect drops the whole in-flight list of the client, if any namespace is open. */
  lemma DisconnectDrops(s: State, client: string)
    ensures s.namespaceOrder == [] ==> Disconnected(s, client) == s.(connected := s.connected - {client})
    ensures s.namespaceOrder != [] ==> Disconnected(s, client).awaitingAck == s.awaitingAck - {client}
  {
  }

  /** The sockets of the namespaces that are in the first map and not in the second. */
  ghost predicate Dropped(sockets: map<string, nat>, sockets': map<string, nat>, id: nat) {
    exists ns :: ns in sockets && ns !in sockets' && sockets[ns] == id
  }

  /** The nacks and the closes of a disconnect. */
  lemma DisconnectSaid(s: State, client: string) returns (nacks: seq<UpstreamCall>, closes: seq<UpstreamCall>)
    requires Structural(s) && s.namespaceOrder != []
    ensures s.namespaceOrder[0] in s.sockets
    ensures nacks == NackCalls(s.sockets, s.namespaceOrder[0], client, OfNamespace(Awaiting(s, client), s.namespaceOrder[0]))
    ensures closes == CloseCalls(s.sockets, Emptied(s.namespaceClients, s.namespaceOrder, client))
    ensures Disconnected(s, client).upstream == s.upstream + nacks + closes
    ensures forall call :: call in nacks ==> call.Nack?
    ensures forall call :: call in closes ==> call.Close?
    ensures forall id :: Close(id) in closes <==> Dropped(s.sockets, Disconnected(s, client).sockets, id)
  {
    var first := s.namespaceOrder[0];
    assert first in s.namespaceOrder;
    var gone := Emptied(s.namespaceClients, s.namespaceOrder, client);
    nacks := NackCalls(s.sockets, first, client, OfNamespace(Awaiting(s, client), first));
    closes := CloseCalls(s.sockets, gone);
    hide Emptied, CloseCalls, NackCalls, OfNamespace, Structural, Keeping, ClientsLeft;
    assert Disconnected(s, client).sockets == SocketsLeft(s.sockets, gone);
    hide Disconnected;
    assert forall ns :: ns in s.sockets ==> (ns in gone <==> ns !in SocketsLeft(s.sockets, gone));
  }

  lemma CallsAt(before: seq<UpstreamCall>, nacks: seq<UpstreamCall>, closes: seq<UpstreamCall>)
    ensures var calls := before + nacks + closes;
            && |calls| == |before| + |nacks| + |closes|
            && before <= calls
            && (forall k :: |before| <= k < |before| + |nacks| ==> calls[k] == nacks[k - |before|])
            && (forall k :: |before| + |nacks| <= k < |calls| ==> calls[k] == closes[k - |before| - |nacks|])
  {
  }

  /** From s to s', upstream was told of a nack for each of some messages, and then of the closing of some namespaces. */
  ghost predicate Tells(s: State, s': State, client: string, first: string, nacked: seq<BatchMessage>, closed: seq<string>) {
    && s.upstream <= s'.upstream
    && |s'.upstream| == |s.upstream| + |nacked| + |closed|
    && var n, end := |s.upstream|, |s.upstream| + |nacked|;
    && (forall k :: n <= k < end ==> first in s.sockets && s'.upstream[k] == Nack(s.sockets[first], client, nacked[k - n]))
    && (forall k :: end <= k < |s'.upstream| ==>
          closed[k - end] in s.sockets && s'.upstream[k] == Close(s.sockets[closed[k - end]]))
  }

  /**
   * From s to s', upstream was told of the client's messages of the first open namespace, a nack for each in
   * list order, and then of the closing of the namespaces it was the only client of, in the order of the map.
   */
  ghost predicate NacksThenCloses(s: State, s': State, client: string)
    requires s.namespaceOrder != []
  {
    exists nacked, closed ::
      && Picks(Awaiting(s, client), (m: BatchMessage) => m.namespace == s.namespaceOrder[0], nacked)
      && Picks(s.namespaceOrder, (ns: string) => Alone(s.namespaceClients, ns, client), closed)
      && Tells(s, s', client, s.namespaceOrder[0], nacked, closed)
  }

  lemma FirstHasSocket(s: State)
    requires Structural(s) && s.namespaceOrder != []
    ensures s.namespaceOrder[0] in s.sockets
  {
    assert s.namespaceOrder[0] in s.namespaceOrder;
  }

  lemma SaysNacksThenCloses(s: State, s': State, client: string, first: string, nacked: seq<BatchMessage>, closed: seq<string>,
                            nacks: seq<UpstreamCall>, closes: seq<UpstreamCall>)
    requires first in s.sockets && s'.upstream == s.upstream + nacks + closes
    requires |nacks| == |nacked| && forall k :: 0 <= k < |nacks| ==> nacks[k] == Nack(s.sockets[first], client, nacked[k])
    requires |closes| == |closed|
    requires forall k :: 0 <= k < |closed| ==> closed[k] in s.sockets && closes[k] == Close(s.sockets[closed[k]])
    ensures Tells(s, s', client, first, nacked, closed)
  {
    CallsAt(s.upstream, nacks, closes);
    var n, end := |s.upstream|, |s.upstream| + |nacked|;
    forall k | end <= k < |s'.upstream|
      ensures closed[k - end] in s.sockets && s'.upstream[k] == Close(s.sockets[closed[k - end]])
    {
      assert s'.upstream[k] == closes[k - end];
    }
  }

  lemma EmptiedHaveSockets(s: State, client: string)
    requires Structural(s)
    ensures forall ns :: ns in Emptied(s.namespaceClients, s.namespaceOrder, client) ==> ns in s.sockets
  {
  }

  lemma DisconnectCalls(s: State, client: string)
    requires Structural(s) && s.namespaceOrder != []
    ensures NacksThenCloses(s, Disconnected(s, client), client)
  {
    var nacked := OfNamespace(Awaiting(s, client), s.namespaceOrder[0]);
    var closed := Emptied(s.namespaceClients, s.namespaceOrder, client);
    hide Disconnected, Structural, OfNamespace, Emptied, NackCalls, CloseCalls, Picks, Tells, Awaiting, Alone;
    var nacks, closes := DisconnectSaid(s, client);
    EmptiedHaveSockets(s, client);
    CloseCallsAre(s.sockets, closed);
    SaysNacksThenCloses(s, Disconnected(s, client), client, s.namespaceOrder[0], nacked, closed, nacks, closes);
    OfNamespacePicks(Awaiting(s, client), s.namespaceOrder[0]);
    EmptiedPicks(s.namespaceClients, s.namespaceOrder, client);
  }

  /** Of two messages of the first open namespace, the one that was given to the client first is nacked first. */
  lemma NacksInListOrder(s: State, client: string, i: nat, j: nat) returns (p: nat, q: nat)
    requires Structural(s) && s.namespaceOrder != [] && client in s.awaitingAck && i < j < |s.awaitingAck[client]|
    requires s.awaitingAck[client][i].namespace == s.awaitingAck[client][j].namespace == s.namespaceOrder[0]
    ensures s.namespaceOrder[0] in s.sockets
    ensures var calls, socket := Disconnected(s, client).upstream, s.sockets[s.namespaceOrder[0]];
            && |s.upstream| <= p < q < |calls|
            && calls[p] == Nack(socket, client, s.awaitingAck[client][i])
            && calls[q] == Nack(socket, client, s.awaitingAck[client][j])
  {
    hide *;
    FirstHasSocket(s);
    DisconnectCalls(s, client);
    p, q := NackedInOrder(s, Disconnected(s, client), client, i, j);
  }

  lemma NackedInOrder(s: State, s': State, client: string, i: nat, j: nat) returns (p: nat, q: nat)
    requires s.namespaceOrder != [] && client in s.awaitingAck && i < j < |s.awaitingAck[client]|
    requires s.awaitingAck[client][i].namespace == s.awaitingAck[client][j].namespace == s.namespaceOrder[0]
    requires s.namespaceOrder[0] in s.sockets && NacksThenCloses(s, s', client)
    ensures |s.upstream| <= p < q < |s'.upstream|
    ensures s'.upstream[p] == Nack(s.sockets[s.namespaceOrder[0]], client, s.awaitingAck[client][i])
    ensures s'.upstream[q] == Nack(s.sockets[s.namespaceOrder[0]], client, s.awaitingAck[client][j])
  {
    hide Picks;
    var nacked, closed :| Picks(Awaiting(s, client), (m: BatchMessage) => m.namespace == s.namespaceOrder[0], nacked)
                          && Tells(s, s', client, s.namespaceOrder[0], nacked, closed);
    p, q := PicksKeepOrder(s.awaitingAck[client], (m: BatchMessage) => m.namespace == s.namespaceOrder[0], nacked, i, j);
    NackAt(s, s', client, s.namespaceOrder[0], nacked, closed, p);
    NackAt(s, s', client, s.namespaceOrder[0], nacked, closed, q);
    p, q := |s.upstream| + p, |s.upstream| + q;
  }

  lemma HeldByOne(s: State, client: string, m: BatchMessage)
    requires Lifecycle(s) && InFlight(s.awaitingAck, client, m)
    ensures forall c :: InFlight(s.awaitingAck, c, m) ==> c == client
  {
  }

  /** From s to s', upstream was only told more, and each new answer is for a message taken off its holder's list. */
  ghost predicate NewAnswersRemove(s: State, s': State) {
    && s.upstream <= s'.upstream
    && forall k :: |s.upstream| <= k < |s'.upstream| && Answers(s'.upstream[k]) ==>
         var call := s'.upstream[k];
         && InFlight(s.awaitingAck, call.client, call.message)
         && (forall c :: !InFlight(s'.awaitingAck, c, call.message))
         && call.message.namespace in s.sockets && call.socket == s.sockets[call.message.namespace]
  }

  lemma AckAnswersRemove(s: State, client: string, messageId: Option<string>)
    requires Structural(s) && Lifecycle(s)
    ensures NewAnswersRemove(s, Acked(s, client, messageId))
  {
    if messageId.Some? && client in s.awaitingAck && FindId(s.awaitingAck[client], messageId.value).Some? {
      var m := FindId(s.awaitingAck[client], messageId.value).value;
      AckRule(s, client, m.id, m);
      hide Acked, Structural, Lifecycle;
    }
  }

  /** A client whose whole list goes when some of it is nacked. */
  lemma NacksRemove(s: State, s': State, client: string)
    requires Lifecycle(s) && s.namespaceOrder != [] && NacksThenCloses(s, s', client)
    requires s'.awaitingAck == s.awaitingAck - {client}
    ensures NewAnswersRemove(s, s')
  {
    hide Lifecycle, Picks;
    var nacked, closed :| Picks(Awaiting(s, client), (m: BatchMessage) => m.namespace == s.namespaceOrder[0], nacked)
                          && Tells(s, s', client, s.namespaceOrder[0], nacked, closed);
    PicksMembers(Awaiting(s, client), (m: BatchMessage) => m.namespace == s.namespaceOrder[0], nacked);
    forall k | |s.upstream| <= k < |s'.upstream| && Answers(s'.upstream[k])
      ensures var call := s'.upstream[k];
              && InFlight(s.awaitingAck, call.client, call.message)
              && (forall c :: !InFlight(s'.awaitingAck, c, call.message))
              && call.message.namespace in s.sockets && call.socket == s.sockets[call.message.namespace]
    {
      NackedAt(s, s', client, s.namespaceOrder[0], nacked, closed, k);
      var m := nacked[k - |s.upstream|];
      assert m in nacked && InFlight(s.awaitingAck, client, m);
      HeldByOne(s, client, m);
      forall c ensures !InFlight(s'.awaitingAck, c, m) {
        assert InFlight(s'.awaitingAck, c, m) ==> InFlight(s.awaitingAck, c, m);
      }
    }
  }

  lemma NackAt(s: State, s': State, client: string, first: string, nacked: seq<BatchMessage>, closed: seq<string>, i: nat)
    requires Tells(s, s', client, first, nacked, closed) && i < |nacked|
    ensures |s.upstream| + i < |s'.upstream| && first in s.sockets
    ensures s'.upstream[|s.upstream| + i] == Nack(s.sockets[first], client, nacked[i])
  {
    var k := |s.upstream| + i;
    assert s'.upstream[k].Nack?;
  }

  lemma NackedAt(s: State, s': State, client: string, first: string, nacked: seq<BatchMessage>, closed: seq<string>, k: nat)
    requires Tells(s, s', client, first, nacked, closed) && |s.upstream| <= k < |s'.upstream| && Answers(s'.upstream[k])
    ensures k - |s.upstream| < |nacked| && first in s.sockets
    ensures s'.upstream[k] == Nack(s.sockets[first], client, nacked[k - |s.upstream|])
  {
  }

  lemma SameAnswersRemove(s: State, s': State)
    requires s'.upstream == s.upstream
    ensures NewAnswersRemove(s, s')
  {
  }

  lemma DisconnectAnswersRemove(s: State, client: string)
    requires Structural(s) && Lifecycle(s)
    ensures NewAnswersRemove(s, Disconnected(s, client))
  {
    hide *;
    DisconnectDrops(s, client);
    if s.namespaceOrder == [] {
      SameAnswersRemove(s, Disconnected(s, client));
    } else {
      DisconnectCalls(s, client);
      NacksRemove(s, Disconnected(s, client), client);
    }
  }

  /**
   * In every step, an upstream ack or nack is for a message that the same client held before the step and
   * nobody holds after it, through the socket of the message's namespace. Nothing said is taken back.
   */
  lemma AnswersRemove(s: State, step: Step)
    requires Structural(s) && Lifecycle(s) && Enabled(s, step)
    ensures NewAnswersRemove(s, Next(s, step))
  {
    StepFrame(s, step);
    hide Structural, Lifecycle, Enabled, Acked, Delivered, LookedUp, Started, Resumed, Disconnected;
    if step.ClientAck? {
      AckAnswersRemove(s, step.client, step.messageId);
    } else if step.Disconnect? {
      DisconnectAnswersRemove(s, step.client);
    }
  }

  /** From s to s', the client has left all its namespaces, those of which it was the last are gone, and it holds nothing. */
  ghost predicate HasLeft(s: State, s': State, client: string) {
    && (forall ns :: ns in s'.namespaceClients <==>
          ns in s.namespaceClients && exists c :: c in s.namespaceClients[ns] && c != client)
    && (forall ns :: ns in s'.namespaceClients ==> client !in s'.namespaceClients[ns])
    && (forall c, m :: InFlight(s'.awaitingAck, c, m) <==> InFlight(s.awaitingAck, c, m) && c != client)
  }

  lemma LeftIsLeft(s: State, s': State, client: string)
    requires forall ns :: ns in s'.namespaceClients <==>
               ns in s.namespaceClients && exists c :: c in s.namespaceClients[ns] && c != client
    requires forall n, c :: Member(s'.namespaceClients, n, c) <==> Member(s.namespaceClients, n, c) && c != client
    requires s'.awaitingAck == s.awaitingAck - {client}
    ensures HasLeft(s, s', client)
  {
    forall ns | ns in s'.namespaceClients ensures client !in s'.namespaceClients[ns] {
      assert !Member(s'.namespaceClients, ns, client);
    }
  }

  lemma DisconnectLeaves(s: State, client: string)
    requires Structural(s) && s.namespaceOrder != []
    ensures HasLeft(s, Disconnected(s, client), client)
  {
    hide *;
    DisconnectMembers(s, client);
    DisconnectDrops(s, client);
    LeaveMembers(s, client);
    LeftIsLeft(s, Disconnected(s, client), client);
  }

  /**
   * What a disconnect says upstream: nacks for the client's messages of the first open namespace, once
   * each and in list order, and only then the closing of the namespaces it was the last client of.
   * Afterwards the client belongs to no namespace and holds nothing.
   */
  lemma DisconnectNacksFirstNamespace(s: State, client: string)
    requires Structural(s) && s.namespaceOrder != []
    ensures NacksThenCloses(s, Disconnected(s, client), client)
    ensures HasLeft(s, Disconnected(s, client), client)
  {
    DisconnectCalls(s, client);
    DisconnectLeaves(s, client);
  }

  lemma DisconnectMembers(s: State, client: string)
    requires Structural(s) && s.namespaceOrder != []
    ensures var s' := Disconnected(s, client);
            forall ns :: ns in s'.namespaceClients <==>
              ns in s.namespaceClients && exists c :: c in s.namespaceClients[ns] && c != client
  {
    var s' := Disconnected(s, client);
    forall ns | ns in s.namespaceClients
      ensures ns in s'.namespaceClients <==> exists c :: c in s.namespaceClients[ns] && c != client
    {
      var left := Without(s.namespaceClients[ns], client);
      if left != [] {
        assert left[0] in left;
      }
    }
  }

  /**
   * Every in-flight message of the client is nacked if and only if they are all of the first open
   * namespace; the others are forgotten without a word upstream.
   */
  lemma AllNackedIff(s: State, client: string)
    requires Structural(s) && Lifecycle(s) && s.namespaceOrder != []
    ensures (forall m :: InFlight(s.awaitingAck, client, m) ==>
               m.namespace in s.sockets && Nack(s.sockets[m.namespace], client, m) in Disconnected(s, client).upstream)
       <==> (forall m :: InFlight(s.awaitingAck, client, m) ==> m.namespace == s.namespaceOrder[0])
  {
    hide Disconnected, Structural, Lifecycle;
    forall m | InFlight(s.awaitingAck, client, m)
      ensures m.namespace in s.sockets
      ensures Nack(s.sockets[m.namespace], client, m) in Disconnected(s, client).upstream
         <==> m.namespace == s.namespaceOrder[0]
    {
      NackedIff(s, client, m);
    }
  }

  /** With a single open namespace, a disconnect nacks every in-flight message of the client. */
  lemma SingleNamespaceNacksAll(s: State, client: string, m: BatchMessage)
    requires Structural(s) && Lifecycle(s) && |s.namespaceOrder| == 1 && InFlight(s.awaitingAck, client, m)
    ensures m.namespace in s.sockets
    ensures Nack(s.sockets[m.namespace], client, m) in Disconnected(s, client).upstream
  {
    assert m.namespace in s.namespaceOrder;
    NackedIff(s, client, m);
  }

  lemma NackedIff(s: State, client: string, m: BatchMessage)
    requires Structural(s) && Lifecycle(s) && s.namespaceOrder != [] && InFlight(s.awaitingAck, client, m)
    ensures m.namespace in s.sockets
    ensures Nack(s.sockets[m.namespace], client, m) in Disconnected(s, client).upstream
       <==> m.namespace == s.namespaceOrder[0]
  {
    hide *;
    HeldHasSocket(s, client, m);
    DisconnectCalls(s, client);
    NackedAmong(s, Disconnected(s, client), client, m);
  }

  lemma HeldHasSocket(s: State, client: string, m: BatchMessage)
    requires Structural(s) && InFlight(s.awaitingAck, client, m)
    ensures m.namespace in s.sockets
  {
  }

  lemma NackedAmong(s: State, s': State, client: string, m: BatchMessage)
    requires Lifecycle(s) && InFlight(s.awaitingAck, client, m) && m.namespace in s.sockets
    requires s.namespaceOrder != [] && NacksThenCloses(s, s', client)
    ensures Nack(s.sockets[m.namespace], client, m) in s'.upstream <==> m.namespace == s.namespaceOrder[0]
  {
    hide Lifecycle, Picks;
    NotYetAnswered(s, client, m);
    var calls, call := s'.upstream, Nack(s.sockets[m.namespace], client, m);
    var nacked, closed :| Picks(Awaiting(s, client), (x: BatchMessage) => x.namespace == s.namespaceOrder[0], nacked)
                          && Tells(s, s', client, s.namespaceOrder[0], nacked, closed);
    PicksMembers(Awaiting(s, client), (x: BatchMessage) => x.namespace == s.namespaceOrder[0], nacked);
    if m.namespace == s.namespaceOrder[0] {
      var i :| 0 <= i < |nacked| && nacked[i] == m;
      NackAt(s, s', client, s.namespaceOrder[0], nacked, closed, i);
    } else {
      forall k | 0 <= k < |calls| ensures calls[k] != call {
        var i := k - |s.upstream|;
        if 0 <= i && Answers(calls[k]) {
          NackedAt(s, s', client, s.namespaceOrder[0], nacked, closed, k);
          assert nacked[i] in nacked;
        }
      }
    }
  }

  lemma NotYetAnswered(s: State, client: string, m: BatchMessage)
    requires Lifecycle(s) && InFlight(s.awaitingAck, client, m)
    ensures forall i :: 0 <= i < |s.upstream| && Answers(s.upstream[i]) ==> s.upstream[i].message != m
  {
  }

  // ---- the order of the namespaces ----

  ghost predicate Open(s: State, ns: string) {
    ns in s.namespaceClients
  }

  /** The one namespace comes before the other in the map. */
  ghost predicate Earlier(order: seq<string>, a: string, b: string) {
    exists i, j :: 0 <= i < j < |order| && order[i] == a && order[j] == b
  }

  lemma EarlierIsTotal(order: seq<string>, a: string, b: string)
    requires NoDup(order) && a in order && b in order && a != b
    ensures Earlier(order, a, b) <==> !Earlier(order, b, a)
  {
    var i :| 0 <= i < |order| && order[i] == a;
    var j :| 0 <= j < |order| && order[j] == b;
    assert forall k :: 0 <= k < |order| && order[k] == a ==> k == i;
    assert forall k :: 0 <= k < |order| && order[k] == b ==> k == j;
  }

  lemma EarlierAppended(order: seq<string>, ns: string, a: string, b: string)
    requires a in order
    ensures Earlier(order, a, b) ==> Earlier(order + [ns], a, b)
    ensures b == ns ==> Earlier(order + [ns], a, b)
  {
    var order' := order + [ns];
    if i, j :| 0 <= i < j < |order| && order[i] == a && order[j] == b {
      assert order'[i] == a && order'[j] == b;
    }
    var i :| 0 <= i < |order| && order[i] == a;
    assert order'[i] == a && order'[|order|] == ns;
  }

  lemma EarlierKept(order: seq<string>, gone: seq<string>, a: string, b: string)
    requires Earlier(order, a, b) && a !in gone && b !in gone
    ensures Earlier(Keeping(order, gone), a, b)
  {
    var i, j :| 0 <= i < j < |order| && order[i] == a && order[j] == b;
    KeepingPicks(order, gone);
    var p, q := PicksKeepOrder(order, (ns: string) => ns !in gone, Keeping(order, gone), i, j);
  }

  lemma JoinKeepsOrder(s: State, client: string, ns: string, a: string, b: string)
    requires a in s.namespaceOrder
    ensures var s' := Join(s, client, ns);
            && (Earlier(s.namespaceOrder, a, b) ==> Earlier(s'.namespaceOrder, a, b))
            && (!Open(s, b) && Open(s', b) ==> Earlier(s'.namespaceOrder, a, b))
  {
    EarlierAppended(s.namespaceOrder, ns, a, b);
    hide Earlier;
  }

  lemma DisconnectKeepsOrder(s: State, client: string, a: string, b: string)
    requires Structural(s) && Earlier(s.namespaceOrder, a, b)
    requires Open(Disconnected(s, client), a) && Open(Disconnected(s, client), b)
    ensures Earlier(Disconnected(s, client).namespaceOrder, a, b)
  {
    if s.namespaceOrder != [] {
      var gone := Emptied(s.namespaceClients, s.namespaceOrder, client);
      hide Emptied, Keeping, OfNamespace, NackCalls, CloseCalls, Earlier, Structural;
      EarlierKept(s.namespaceOrder, gone, a, b);
    }
  }

  /** A disconnect opens nothing. */
  lemma DisconnectOpens(s: State, client: string, ns: string)
    ensures Open(Disconnected(s, client), ns) ==> Open(s, ns)
  {
  }

  /** A step keeps the order of the namespaces that stay, and puts one that it opens after all others. */
  lemma StepKeepsOrder(s: State, step: Step, a: string, b: string)
    requires Structural(s) && Enabled(s, step) && Open(s, a) && Open(Next(s, step), a) && Open(Next(s, step), b)
    ensures Earlier(s.namespaceOrder, a, b) ==> Earlier(Next(s, step).namespaceOrder, a, b)
    ensures !Open(s, b) ==> Earlier(Next(s, step).namespaceOrder, a, b)
  {
    StepFrame(s, step);
    assert a in s.namespaceOrder;
    hide Structural, Earlier, Acked, Delivered, LookedUp, Disconnected, Join;
    match step
    case Start(client, ns) =>
      JoinKeepsOrder(s, client, ns, a, b);
    case StartConnected(client, ns) =>
      JoinKeepsOrder(s.(starting := s.starting - multiset{(client, ns)}, sockets := s.sockets[ns := s.socketCount],
                        socketCount := s.socketCount + 1), client, ns, a, b);
    case Disconnect(client) =>
      DisconnectOpens(s, client, b);
      if Earlier(s.namespaceOrder, a, b) {
        DisconnectKeepsOrder(s, client, a, b);
      }
    case _ =>
  }

  /** One step opens one namespace at most. */
  lemma StepOpensOne(s: State, step: Step, a: string, b: string)
    requires Enabled(s, step) && !Open(s, a) && !Open(s, b) && Open(Next(s, step), a) && Open(Next(s, step), b)
    ensures a == b
  {
    StepFrame(s, step);
    hide Acked, Delivered, LookedUp, Disconnected;
    if step.Disconnect? {
      DisconnectOpens(s, step.client, a);
    }
  }

  /** The namespace has been open from the k-th state to the i-th. */
  ghost predicate OpenSince(trace: seq<State>, k: nat, i: nat, ns: string)
    requires k <= i < |trace|
  {
    forall j :: k <= j <= i ==> Open(trace[j], ns)
  }

  /** The one namespace was open at some time when the other was not, and has been open ever since. */
  ghost predicate OpenedBefore(trace: seq<State>, i: nat, a: string, b: string)
    requires i < |trace|
  {
    exists k: nat :: k <= i && OpenSince(trace, k, i, a) && !Open(trace[k], b)
  }

  lemma StillOpenedBefore(trace: seq<State>, i: nat, a: string, b: string)
    requires 0 < i < |trace| && OpenedBefore(trace, i - 1, a, b) && Open(trace[i], a)
    ensures OpenedBefore(trace, i, a, b)
  {
    var k: nat :| k <= i - 1 && OpenSince(trace, k, i - 1, a) && !Open(trace[k], b);
    assert OpenSince(trace, k, i, a);
  }

  lemma JustOpenedBefore(trace: seq<State>, i: nat, a: string, b: string)
    requires 0 < i < |trace| && Open(trace[i - 1], a) && Open(trace[i], a) && !Open(trace[i - 1], b)
    ensures OpenedBefore(trace, i, a, b)
  {
    assert OpenSince(trace, i - 1, i, a);
  }

  lemma NotBothBefore(trace: seq<State>, i: nat, a: string, b: string)
    requires i < |trace| && OpenedBefore(trace, i, a, b)
    ensures !OpenedBefore(trace, i, b, a)
  {
    var k: nat :| k <= i && OpenSince(trace, k, i, a) && !Open(trace[k], b);
    forall k': nat | k' <= i && OpenSince(trace, k', i, b) ensures Open(trace[k'], a) {
      assert !(k' <= k);
    }
  }

  /** Of two open namespaces, the one was opened before the other. */
  lemma {:induction false} OneOpenedBefore(trace: seq<State>, steps: seq<Step>, i: nat, a: string, b: string)
    requires IsRun(trace, steps) && i < |trace| && a != b && Open(trace[i], a) && Open(trace[i], b)
    ensures if Earlier(trace[i].namespaceOrder, a, b) then OpenedBefore(trace, i, a, b) else OpenedBefore(trace, i, b, a)
  {
    hide Next, Enabled, Structural, Lifecycle, Earlier, OpenedBefore;
    NothingOpen(trace, steps, a);
    if i > 0 {
      var s, s' := trace[i - 1], trace[i];
      EveryRun(trace, steps, i - 1);
      EveryRun(trace, steps, i);
      RunStep(trace, steps, i - 1);
      OrderIsTotal(s', a, b);
      if Open(s, a) && Open(s, b) {
        OrderIsTotal(s, a, b);
        OneOpenedBefore(trace, steps, i - 1, a, b);
        StepKeepsOrder(s, steps[i - 1], a, b);
        StepKeepsOrder(s, steps[i - 1], b, a);
        if Earlier(s.namespaceOrder, a, b) {
          StillOpenedBefore(trace, i, a, b);
        } else {
          StillOpenedBefore(trace, i, b, a);
        }
      } else if Open(s, a) {
        StepKeepsOrder(s, steps[i - 1], a, b);
        JustOpenedBefore(trace, i, a, b);
      } else if Open(s, b) {
        StepKeepsOrder(s, steps[i - 1], b, a);
        JustOpenedBefore(trace, i, b, a);
      } else {
        StepOpensOne(s, steps[i - 1], a, b);
      }
    }
  }

  lemma NothingOpen(trace: seq<State>, steps: seq<Step>, ns: string)
    requires IsRun(trace, steps)
    ensures !Open(trace[0], ns)
  {
    hide Next, Enabled;
  }

  lemma OrderIsTotal(s: State, a: string, b: string)
    requires Structural(s) && Open(s, a) && Open(s, b) && a != b
    ensures Earlier(s.namespaceOrder, a, b) <==> !Earlier(s.namespaceOrder, b, a)
  {
    EarlierIsTotal(s.namespaceOrder, a, b);
  }

  /**
   * In every run the map lists the open namespaces in the order they were opened in. The first one, which
   * alone is nacked when a client leaves, is the one that has been open longest.
   */
  lemma NamespacesInOpeningOrder(trace: seq<State>, steps: seq<Step>, i: nat, a: string, b: string)
    requires IsRun(trace, steps) && i < |trace| && a != b && Open(trace[i], a) && Open(trace[i], b)
    ensures Earlier(trace[i].namespaceOrder, a, b) <==> OpenedBefore(trace, i, a, b)
  {
    OneOpenedBefore(trace, steps, i, a, b);
    hide *;
    if OpenedBefore(trace, i, a, b) {
      NotBothBefore(trace, i, a, b);
    }
  }

  // ---- members that are no longer there ----

  /** A start that resumes after its client has gone. */
  ghost predicate Stray(s: State, step: Step) {
    step.StartConnected? && step.client !in s.connected
  }

  ghost predicate Member(clients: map<string, seq<string>>, ns: string, client: string) {
    ns in clients && client in clients[ns]
  }

  ghost predicate ClientsSeen(s: State) {
    && Known(s.connected, s.seen, s.awaitingAck, s.starting)
    && (forall ns, c :: Member(s.namespaceClients, ns, c) ==> c in s.seen)
  }

  ghost predicate Known(connected: set<string>, seen: set<string>, awaiting: map<string, seq<BatchMessage>>,
                        starting: multiset<(string, string)>) {
    && connected <= seen
    && (forall c :: c in connected ==> c in awaiting)
    && (forall c, ns :: (c, ns) in starting ==> c in seen)
  }

  lemma JoinMembers(s: State, client: string, ns: string)
    ensures forall n, c :: Member(Join(s, client, ns).namespaceClients, n, c)
                      <==> Member(s.namespaceClients, n, c) || (n == ns && c == client)
  {
  }

  lemma NoOrderNoMembers(s: State)
    requires Structural(s) && s.namespaceOrder == []
    ensures forall n, c :: !Member(s.namespaceClients, n, c)
  {
    assert forall ns :: ns in s.namespaceClients ==> ns in s.namespaceOrder;
  }

  lemma LeaveMembers(s: State, client: string)
    requires Structural(s)
    ensures forall n, c :: Member(Disconnected(s, client).namespaceClients, n, c)
                      <==> Member(s.namespaceClients, n, c) && c != client
  {
    if s.namespaceOrder == [] {
      NoOrderNoMembers(s);
    } else {
      var s' := Disconnected(s, client);
      forall n, c ensures Member(s'.namespaceClients, n, c) <==> Member(s.namespaceClients, n, c) && c != client {
        LeaveMember(s, client, n, c);
      }
      hide Disconnected, Member, Structural;
    }
  }

  lemma LeaveMember(s: State, client: string, n: string, c: string)
    requires Structural(s) && s.namespaceOrder != []
    ensures Member(Disconnected(s, client).namespaceClients, n, c) <==> Member(s.namespaceClients, n, c) && c != client
  {
    if n in s.namespaceClients {
      assert n in s.namespaceOrder;
      assert c in Without(s.namespaceClients[n], client) <==> c in s.namespaceClients[n] && c != client;
      assert c in Without(s.namespaceClients[n], client) ==> Without(s.namespaceClients[n], client) != [];
    }
  }

  /** Which members a step adds and takes away. */
  lemma StepMembers(s: State, step: Step)
    requires Structural(s) && Enabled(s, step)
    ensures forall n, c :: Member(Next(s, step).namespaceClients, n, c) <==>
      (Member(s.namespaceClients, n, c) && step != Disconnect(c))
      || (step == Start(c, n) && s.configured && n in s.sockets) || step == StartConnected(c, n)
  {
    StepFrame(s, step);
    hide Structural, Enabled, Acked, Delivered, LookedUp, Disconnected, Join;
    if step.StartConnected? || step.Start? {
      JoinMembers(s, step.client, step.namespace);
      if step.StartConnected? {
        JoinMembers(s.(starting := s.starting - multiset{(step.client, step.namespace)},
                       sockets := s.sockets[step.namespace := s.socketCount],
                       socketCount := s.socketCount + 1), step.client, step.namespace);
      }
    } else if step.Disconnect? {
      LeaveMembers(s, step.client);
    }
  }

  lemma StepKnown(s: State, step: Step)
    requires Enabled(s, step) && Known(s.connected, s.seen, s.awaitingAck, s.starting)
    ensures Known(Next(s, step).connected, Next(s, step).seen, Next(s, step).awaitingAck, Next(s, step).starting)
  {
    StepFrame(s, step);
    hide Acked, Delivered, LookedUp, Started, Resumed, Disconnected;
    match step
    case Connect(_) =>
    case Disconnect(client) => DisconnectedFrame(s, client);
    case _ =>
  }

  lemma StartedBySeen(s: State, step: Step)
    requires ClientsSeen(s) && Enabled(s, step)
    ensures step.Start? || step.StartConnected? ==> step.client in s.seen
    ensures step.Connect? ==> step.client !in s.seen
    ensures step.Start? ==> step.client in s.connected
    ensures s.connected <= s.seen
  {
  }

  lemma StepSeen(s: State, step: Step)
    requires Structural(s) && ClientsSeen(s) && Enabled(s, step)
    ensures ClientsSeen(Next(s, step))
  {
    StartedBySeen(s, step);
    StepMembers(s, step);
    StepKnown(s, step);
    StepFrame(s, step);
    hide Next, Enabled, Structural, Known, Member;
  }

  /** A member that is not connected stays; a new one comes only from a stray start. */
  lemma StepAbsent(s: State, step: Step, n: string, c: string)
    requires Structural(s) && ClientsSeen(s) && Enabled(s, step)
    ensures Absent(Next(s, step), n, c) <==> Absent(s, n, c) || (step == StartConnected(c, n) && c !in s.connected)
  {
    StartedBySeen(s, step);
    StepMembers(s, step);
    StepFrame(s, step);
    assert Member(s.namespaceClients, n, c) ==> c in s.seen;
    hide Next, Enabled, Structural, ClientsSeen, Member;
  }

  lemma StepConnected(s: State, step: Step)
    requires Structural(s) && ClientsSeen(s) && Enabled(s, step)
    ensures AllConnected(Next(s, step)) <==> AllConnected(s) && !Stray(s, step)
  {
    hide Next, Enabled, Structural, ClientsSeen, Absent;
    forall n, c ensures Absent(Next(s, step), n, c)
      <==> Absent(s, n, c) || (step == StartConnected(c, n) && c !in s.connected)
    {
      StepAbsent(s, step, n, c);
    }
    if Stray(s, step) {
      assert Absent(Next(s, step), step.namespace, step.client);
    }
  }

  lemma InitConnected(configured: bool, listeners: nat)
    ensures ClientsSeen(Init(configured, listeners)) && AllConnected(Init(configured, listeners))
  {
  }

  lemma {:induction false} MembersOfRun(trace: seq<State>, steps: seq<Step>, i: nat)
    requires IsRun(trace, steps) && i < |trace|
    ensures ClientsSeen(trace[i])
    ensures AllConnected(trace[i]) <==> NoneBefore(trace, steps, i, Stray)
  {
    hide Next, Enabled, Structural, Lifecycle, ClientsSeen, AllConnected, Stray;
    if i == 0 {
      InitConnected(trace[0].configured, trace[0].listeners);
    } else {
      MembersOfRun(trace, steps, i - 1);
      EveryRun(trace, steps, i - 1);
      RunStep(trace, steps, i - 1);
      StepSeen(trace[i - 1], steps[i - 1]);
      StepConnected(trace[i - 1], steps[i - 1]);
      assert NoneBefore(trace, steps, i, Stray)
        <==> NoneBefore(trace, steps, i - 1, Stray) && !Stray(trace[i - 1], steps[i - 1]);
    }
  }

  /** The client belongs to the namespace but is not connected. */
  ghost predicate Absent(s: State, ns: string, client: string) {
    Member(s.namespaceClients, ns, client) && client !in s.connected
  }

  ghost predicate AllConnected(s: State) {
    forall n, c :: !Absent(s, n, c)
  }

  /**
   * A client set holds a client that is not connected if and only if some start resumed after its client
   * had gone; such a member never leaves, so its namespace and socket stay open for ever.
   */
  lemma MembersConnectedIff(trace: seq<State>, steps: seq<Step>, i: nat)
    requires IsRun(trace, steps) && i < |trace|
    ensures AllConnected(trace[i]) <==> NoneBefore(trace, steps, i, Stray)
  {
    MembersOfRun(trace, steps, i);
  }

  lemma NoMembersNoNamespaces(s: State)
    requires AllConnected(s) && s.connected == {}
    ensures forall ns :: ns in s.namespaceClients ==> s.namespaceClients[ns] == []
  {
    forall ns | ns in s.namespaceClients && s.namespaceClients[ns] != [] ensures false {
      assert Absent(s, ns, s.namespaceClients[ns][0]);
    }
  }

  /** Once no client is connected, the proxy has namespaces left if and only if an absent client is a member of one. */
  lemma NamespacesLeftIff(s: State)
    requires Structural(s) && s.connected == {}
    ensures s.namespaceClients == map[] <==> AllConnected(s)
    ensures s.sockets == map[] <==> AllConnected(s)
  {
    if AllConnected(s) {
      NoMembersNoNamespaces(s);
    }
    assert s.namespaceClients == map[] <==> s.namespaceClients.Keys == {};
    assert s.sockets == map[] <==> s.sockets.Keys == {};
    if s.namespaceClients == map[] {
      assert forall n, c :: !Member(s.namespaceClients, n, c);
    }
  }

  /** Without such starts, a message given to a client is in flight with that client, after all it was given before. */
  lemma DeliveredIsTracked(trace: seq<State>, steps: seq<Step>, i: nat)
    requires IsRun(trace, steps) && i < |steps| && steps[i].Deliver?
    requires NoneBefore(trace, steps, i, Stray)
    requires trace[i].queue[0].arrival.namespace in trace[i].namespaceClients
    ensures |trace[i + 1].processed| == |trace[i].processed| + 1
    ensures var p := trace[i + 1].processed[|trace[i].processed|];
            && p.Sent? && p.client.Some? && p.client.value in trace[i].awaitingAck
            && trace[i + 1].awaitingAck == trace[i].awaitingAck[p.client.value := trace[i].awaitingAck[p.client.value] + [p.message]]
            && InFlight(trace[i + 1].awaitingAck, p.client.value, p.message)
  {
    var s := trace[i];
    var ns := s.queue[0].arrival.namespace;
    MembersOfRun(trace, steps, i);
    assert !Absent(s, ns, s.namespaceClients[ns][steps[i].selected]);
    assert trace[i + 1] == Delivered(s, steps[i].id, steps[i].selected);
  }

  /** Each member of the namespace may be the one that a batch is given to, and nobody else may. */
  lemma DeliverReachesMembers(s: State, id: string, client: string)
    requires Enabled(s, Deliver(id, 0)) && s.queue[0].arrival.namespace in s.namespaceClients
    ensures client in s.namespaceClients[s.queue[0].arrival.namespace] <==>
            exists selected :: Enabled(s, Deliver(id, selected))
              && var p := Delivered(s, id, selected).processed[|s.processed|]; p.Sent? && p.client == Some(client)
  {
    var members := s.namespaceClients[s.queue[0].arrival.namespace];
    if client in members {
      var selected: nat :| selected < |members| && members[selected] == client;
      assert Enabled(s, Deliver(id, selected));
      assert Delivered(s, id, selected).processed[|s.processed|].client == Some(client);
    }
  }
}
