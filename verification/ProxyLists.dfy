/** The list functions of the proxy, against the elements they are to pick: which ones, how often and in what order. */
module ProxyLists {
  import opened Picking
  import opened Wrappers
  import opened ProxyMachine

  lemma {:induction false} OfNamespacePicks(msgs: seq<BatchMessage>, ns: string)
    ensures Picks(msgs, (m: BatchMessage) => m.namespace == ns, OfNamespace(msgs, ns))
  {
    hide Picks;
    if msgs == [] {
      NothingPicked((m: BatchMessage) => m.namespace == ns);
    } else {
      var front, last := msgs[..|msgs| - 1], msgs[|msgs| - 1];
      OfNamespacePicks(front, ns);
      PickNext(front, last, (m: BatchMessage) => m.namespace == ns, OfNamespace(front, ns));
      assert msgs == front + [last];
      assert OfNamespace(front, ns) + [] == OfNamespace(front, ns);
    }
  }

  lemma {:induction false} WithoutIdPicks(msgs: seq<BatchMessage>, id: string)
    ensures Picks(msgs, (m: BatchMessage) => m.id != id, WithoutId(msgs, id))
  {
    hide Picks;
    if msgs == [] {
      NothingPicked((m: BatchMessage) => m.id != id);
    } else {
      var front, last := msgs[..|msgs| - 1], msgs[|msgs| - 1];
      WithoutIdPicks(front, id);
      PickNext(front, last, (m: BatchMessage) => m.id != id, WithoutId(front, id));
      assert msgs == front + [last];
      assert WithoutId(front, id) + [] == WithoutId(front, id);
    }
  }

  lemma {:induction false} KeepingPicks(order: seq<string>, gone: seq<string>)
    ensures Picks(order, (ns: string) => ns !in gone, Keeping(order, gone))
  {
    hide Picks;
    if order == [] {
      NothingPicked((ns: string) => ns !in gone);
    } else {
      var front, last := order[..|order| - 1], order[|order| - 1];
      KeepingPicks(front, gone);
      PickNext(front, last, (ns: string) => ns !in gone, Keeping(front, gone));
      assert order == front + [last];
      assert Keeping(front, gone) + [] == Keeping(front, gone);
    }
  }

  /** Nobody but the client is in the client set of the namespace. */
  predicate Alone(clients: map<string, seq<string>>, ns: string, client: string) {
    ns in clients && forall c :: c in clients[ns] ==> c == client
  }

  lemma AloneIff(clients: map<string, seq<string>>, ns: string, client: string)
    requires ns in clients
    ensures Without(clients[ns], client) == [] <==> Alone(clients, ns, client)
  {
    var left := Without(clients[ns], client);
    if left != [] {
      assert left[0] in left;
    }
  }

  lemma {:induction false} EmptiedPicks(clients: map<string, seq<string>>, order: seq<string>, client: string)
    ensures Picks(order, (ns: string) => Alone(clients, ns, client), Emptied(clients, order, client))
  {
    hide Picks, Without, Alone;
    if order == [] {
      NothingPicked((ns: string) => Alone(clients, ns, client));
    } else {
      var front, last := order[..|order| - 1], order[|order| - 1];
      EmptiedPicks(clients, front, client);
      PickNext(front, last, (ns: string) => Alone(clients, ns, client), Emptied(clients, front, client));
      assert order == front + [last];
      assert Emptied(clients, front, client) + [] == Emptied(clients, front, client);
      NotThere(clients, last, client);
      if last in clients {
        AloneIff(clients, last, client);
      }
    }
  }

  lemma NotThere(clients: map<string, seq<string>>, ns: string, client: string)
    ensures Alone(clients, ns, client) ==> ns in clients
  {
  }

  lemma {:induction false} CloseCallsAre(sockets: map<string, nat>, namespaces: seq<string>)
    requires forall ns :: ns in namespaces ==> ns in sockets
    ensures |CloseCalls(sockets, namespaces)| == |namespaces|
    ensures forall k :: 0 <= k < |namespaces| ==>
              namespaces[k] in sockets && CloseCalls(sockets, namespaces)[k] == Close(sockets[namespaces[k]])
  {
    if namespaces != [] {
      var front, last := namespaces[..|namespaces| - 1], namespaces[|namespaces| - 1];
      assert namespaces == front + [last];
      assert last in namespaces && forall ns :: ns in front ==> ns in namespaces;
      CloseCallsAre(sockets, front);
      assert forall k :: 0 <= k < |front| ==> namespaces[k] == front[k];
    }
  }
}
