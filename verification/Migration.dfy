/** The check for subscriptions of an older format: migrationCheck in src/tokens/tokens.service.ts. */
module Migration {
  import opened Picking
  import opened Wrappers
  import opened TokensUtil
  import Erc20
  import Erc721
  import FormCoding
  import Text
  import UriCoding

  const CREATE_EVENT := "TokenPoolCreation"

  datatype EventStream = EventStream(id: string, name: string)

  datatype Subscription = Subscription(name: string, stream: string)

  /** allEvents in src/tokens/abimapper.service.ts: the names of the events a pool is subscribed to. */
  function AllEvents(locator: PoolLocator): (events: seq<string>)
    ensures NoDup(events)
  {
    if locator.tokenType == Some(FUNGIBLE) then Erc20.EVENTS else Erc721.EVENTS
  }

  // ---- what is to be found ----

  /** The name parses, with a locator and an event. */
  predicate Parses(name: string) {
    var sub := UnpackSubscriptionName(name);
    sub.Ok? && sub.value.poolLocator.Some? && sub.value.event.Some?
  }

  /** The events subscribed to for one locator and pool data, apart from the creation of pools. */
  function EventsOf(names: seq<string>, poolLocator: string, poolData: Option<string>): seq<string> {
    if names == [] then []
    else
      var front, last := EventsOf(names[..|names| - 1], poolLocator, poolData), UnpackSubscriptionName(names[|names| - 1]);
      if last.Ok? && last.value.event.Some? && last.value.event.value != CREATE_EVENT
         && last.value.poolLocator == Some(poolLocator) && last.value.poolData == poolData
      then front + [last.value.event.value] else front
  }

  /** The pool has nothing but its creation subscribed, or exactly the events of its kind of token, each once. */
  ghost predicate PoolIsComplete(names: seq<string>, poolLocator: string, poolData: Option<string>) {
    var events, locator := EventsOf(names, poolLocator, poolData), UnpackPoolLocator(poolLocator);
    events != [] ==> locator.Valid() && multiset(events) == multiset(AllEvents(locator))
  }

  ghost predicate Clean(names: seq<string>) {
    && (forall name :: name in names ==> Parses(name))
    && (forall poolLocator, poolData :: PoolIsComplete(names, poolLocator, poolData))
  }

  /** The stream with the name of the topic, of which there are none in the current format. */
  function LegacyStream(streams: seq<EventStream>, topic: string): Option<EventStream> {
    if streams == [] then None
    else if streams[0].name == topic then Some(streams[0])
    else LegacyStream(streams[1..], topic)
  }

  /** The first stream of a name. */
  ghost predicate FirstNamed(streams: seq<EventStream>, name: string, i: nat) {
    i < |streams| && streams[i].name == name && forall k :: 0 <= k < i ==> streams[k].name != name
  }

  lemma {:induction false} LegacyStreamIsFirst(streams: seq<EventStream>, topic: string)
    ensures LegacyStream(streams, topic).None? <==> forall k :: 0 <= k < |streams| ==> streams[k].name != topic
    ensures forall i: nat :: FirstNamed(streams, topic, i) ==> LegacyStream(streams, topic) == Some(streams[i])
  {
    if streams != [] && streams[0].name != topic {
      var rest := streams[1..];
      LegacyStreamIsFirst(rest, topic);
      assert forall k :: 1 <= k < |streams| ==> streams[k] == rest[k - 1];
      forall i: nat | FirstNamed(streams, topic, i) ensures LegacyStream(streams, topic) == Some(streams[i]) {
        assert i > 0 && FirstNamed(rest, topic, i - 1);
      }
    }
  }

  function NamesIn(subscriptions: seq<Subscription>, stream: string): seq<string> {
    if subscriptions == [] then []
    else
      var front, last := NamesIn(subscriptions[..|subscriptions| - 1], stream), subscriptions[|subscriptions| - 1];
      if last.stream == stream then front + [last.name] else front
  }

  /** The names are those of the subscriptions of the stream, one for each and in their order. */
  ghost predicate NamesOn(subscriptions: seq<Subscription>, stream: string, names: seq<string>) {
    exists subs :: Picks(subscriptions, (s: Subscription) => s.stream == stream, subs) && AreNames(subs, names)
  }

  ghost predicate AreNames(subs: seq<Subscription>, names: seq<string>) {
    |names| == |subs| && forall k :: 0 <= k < |subs| ==> names[k] == subs[k].name
  }

  lemma {:induction false} NamesInAre(subscriptions: seq<Subscription>, stream: string)
    ensures NamesOn(subscriptions, stream, NamesIn(subscriptions, stream))
  {
    hide Picks;
    if subscriptions == [] {
      NothingPicked((s: Subscription) => s.stream == stream);
      assert AreNames([], NamesIn(subscriptions, stream));
    } else {
      var front, last := subscriptions[..|subscriptions| - 1], subscriptions[|subscriptions| - 1];
      NamesInAre(front, stream);
      var subs :| Picks(front, (s: Subscription) => s.stream == stream, subs) && AreNames(subs, NamesIn(front, stream));
      PickNext(front, last, (s: Subscription) => s.stream == stream, subs);
      assert subscriptions == front + [last];
      assert AreNames(if last.stream == stream then subs + [last] else subs, NamesIn(subscriptions, stream));
    }
  }

  lemma NamesOnUnique(subscriptions: seq<Subscription>, stream: string, names: seq<string>, names': seq<string>)
    requires NamesOn(subscriptions, stream, names) && NamesOn(subscriptions, stream, names')
    ensures names == names'
  {
    var subs :| Picks(subscriptions, (s: Subscription) => s.stream == stream, subs) && AreNames(subs, names);
    var subs' :| Picks(subscriptions, (s: Subscription) => s.stream == stream, subs') && AreNames(subs', names');
    PicksUnique(subscriptions, (s: Subscription) => s.stream == stream, subs, subs');
  }

  /** The name is that of an event of the pool, and not of its creation. */
  ghost predicate NamesEvent(name: string, poolLocator: string, poolData: Option<string>) {
    exists e :: e != "TokenPoolCreation" && UnpackSubscriptionName(name) == Ok(SubscriptionName(Some(poolLocator), Some(e), poolData))
  }

  /** The events are those that the names say, one for each and in their order. */
  ghost predicate AreEvents(names: seq<string>, events: seq<string>) {
    && |events| == |names|
    && forall k :: 0 <= k < |names| ==>
         UnpackSubscriptionName(names[k]).Ok? && UnpackSubscriptionName(names[k]).value.event == Some(events[k])
  }

  /** The events of a pool are those that the names of the pool say, in the order of the names. */
  lemma {:induction false} EventsOfAre(names: seq<string>, l: string, d: Option<string>) returns (own: seq<string>)
    ensures Picks(names, (name: string) => NamesEvent(name, l, d), own)
    ensures AreEvents(own, EventsOf(names, l, d))
  {
    hide Picks, UnpackSubscriptionName;
    if names == [] {
      own := [];
      NothingPicked((name: string) => NamesEvent(name, l, d));
    } else {
      var front, last := names[..|names| - 1], names[|names| - 1];
      var before := EventsOfAre(front, l, d);
      PickNext(front, last, (name: string) => NamesEvent(name, l, d), before);
      assert names == front + [last];
      own := if NamesEvent(last, l, d) then before + [last] else before;
      var sub := UnpackSubscriptionName(last);
      assert NamesEvent(last, l, d) <==> sub.Ok? && sub.value.event.Some? && sub.value.event.value != CREATE_EVENT
                                         && sub.value.poolLocator == Some(l) && sub.value.poolData == d by {
        if sub.Ok? && sub.value.event.Some? {
          assert sub.value == SubscriptionName(sub.value.poolLocator, Some(sub.value.event.value), sub.value.poolData);
        }
      }
    }
  }

  /** A name parses with three parts between colons, or with four of which the first is fft and the last is percent-encoded. */
  lemma ParsesIff(parts: seq<string>)
    requires parts != [] && forall i :: 0 <= i < |parts| ==> ':' !in parts[i]
    ensures Parses(Text.Join(parts, ':'))
       <==> |parts| == 3 || (|parts| == 4 && parts[0] == "fft" && UriCoding.DecodeURIComponent(parts[3]).Some?)
  {
    UnpackByParts(parts);
    hide UnpackSubscriptionName, Text.Join, UriCoding.DecodeURIComponent;
  }

  /** A pool that has events is complete if its locator is, and the events are two or three by its type, each once. */
  lemma PoolIsCompleteIff(names: seq<string>, l: string, d: Option<string>)
    ensures var fields, events := FormCoding.Parse(l), multiset(EventsOf(names, l, d));
            PoolIsComplete(names, l, d) <==>
              events == multiset{} || (
                && FormCoding.Get(fields, "address").Some?
                && (FormCoding.Get(fields, "schema").Some? || FormCoding.Get(fields, "standard").Some?)
                && FormCoding.Get(fields, "type").Some?
                && if FormCoding.Get(fields, "type").value == "fungible" then events == multiset{"Transfer", "Approval"}
                   else events == multiset{"Transfer", "Approval", "ApprovalForAll"})
  {
    hide EventsOf, FormCoding.Parse, FormCoding.Get;
    var events := EventsOf(names, l, d);
    assert |multiset(events)| == |events|;
    assert multiset(["Transfer", "Approval"]) == multiset{"Transfer", "Approval"};
    assert multiset(["Transfer", "Approval", "ApprovalForAll"]) == multiset{"Transfer", "Approval", "ApprovalForAll"};
  }

  // ---- groups ----

  /** The key of a group in the map of found events. */
  function GroupKey(poolLocator: string, poolData: Option<string>): string {
    PackSubscriptionName(poolLocator, "", poolData)
  }

  lemma GroupKeyUnpacks(poolLocator: string, poolData: Option<string>)
    requires ':' !in poolLocator
    ensures UnpackSubscriptionName(GroupKey(poolLocator, poolData)) == Ok(SubscriptionName(Some(poolLocator), Some(""), poolData))
  {
    UnpackPackIff(poolLocator, "", poolData);
  }

  /** The map holds the events of each group, under its key, and nothing else. */
  ghost predicate HoldsGroups(found: map<string, seq<string>>, names: seq<string>) {
    && (forall l, d :: ':' !in l ==> (GroupKey(l, d) in found <==> EventsOf(names, l, d) != []))
    && (forall l, d :: ':' !in l && GroupKey(l, d) in found ==> found[GroupKey(l, d)] == EventsOf(names, l, d))
    && (forall key :: key in found ==> IsGroupKey(key))
  }

  ghost predicate IsGroupKey(key: string) {
    exists l, d :: ':' !in l && key == GroupKey(l, d)
  }

  /** Events of a group without a colon-free locator do not exist. */
  lemma {:induction false} OnlyColonFree(names: seq<string>, l: string, d: Option<string>)
    requires ':' in l
    ensures EventsOf(names, l, d) == []
  {
    if names != [] {
      OnlyColonFree(names[..|names| - 1], l, d);
    }
  }

  lemma SkipCreate(found: map<string, seq<string>>, names: seq<string>, name: string)
    requires HoldsGroups(found, names) && Parses(name)
    requires UnpackSubscriptionName(name).value.event == Some(CREATE_EVENT)
    ensures HoldsGroups(found, names + [name])
  {
    assert (names + [name])[..|names|] == names;
    assert forall l, d :: EventsOf(names + [name], l, d) == EventsOf(names, l, d);
  }

  lemma AddEvent(found: map<string, seq<string>>, names: seq<string>, name: string)
    requires HoldsGroups(found, names) && Parses(name)
    requires UnpackSubscriptionName(name).value.event.value != CREATE_EVENT
    ensures var sub := UnpackSubscriptionName(name).value;
            var key := GroupKey(sub.poolLocator.value, sub.poolData);
            var existing := if key in found then found[key] else [];
            HoldsGroups(found[key := existing + [sub.event.value]], names + [name])
  {
    var sub := UnpackSubscriptionName(name).value;
    var key := GroupKey(sub.poolLocator.value, sub.poolData);
    var existing := if key in found then found[key] else [];
    var found' := found[key := existing + [sub.event.value]];
    var names' := names + [name];
    assert names'[..|names|] == names;
    assert IsGroupKey(key);
    forall l, d | ':' !in l
      ensures GroupKey(l, d) in found' <==> EventsOf(names', l, d) != []
      ensures GroupKey(l, d) in found' ==> found'[GroupKey(l, d)] == EventsOf(names', l, d)
    {
      PackInjective(l, "", d, sub.poolLocator.value, "", sub.poolData);
    }
  }

  /** The comparison the check makes is that the events are a permutation of those expected. */
  lemma PermutationIff(expected: seq<string>, events: seq<string>)
    requires NoDup(expected)
    ensures |expected| == |events| && (forall e :: e in expected ==> e in events) <==> multiset(events) == multiset(expected)
  {
    if |expected| == |events| && (forall e :: e in expected ==> e in events) {
      Pigeonhole(expected, events);
    }
    if multiset(events) == multiset(expected) {
      assert |multiset(events)| == |events|;
      assert forall e :: e in expected ==> e in multiset(expected);
    }
  }

  // ---- the check ----

  /** The first name that does not parse. */
  ghost predicate FirstBad(names: seq<string>, i: nat) {
    i < |names| && !Parses(names[i]) && forall k :: 0 <= k < i ==> Parses(names[k])
  }

  /** The map of found events, with its keys in the order they came. */
  datatype FoundEvents = FoundEvents(events: map<string, seq<string>>, order: seq<string>) {
    ghost predicate Valid() {
      Listed(events, order)
    }
  }

  ghost predicate Listed(events: map<string, seq<string>>, order: seq<string>) {
    forall key :: key in events <==> key in order
  }

  lemma ListedMore(events: map<string, seq<string>>, order: seq<string>, key: string, more: seq<string>)
    requires Listed(events, order)
    ensures key in events ==> Listed(events[key := more], order)
    ensures Listed(events[key := more], order + [key])
  {
  }

  lemma NoGroups()
    ensures HoldsGroups(map[], [])
  {
  }

  /** One turn of the first loop: the event is pushed onto the group of its key, which may be new. */
  method AddToGroup(ghost names: seq<string>, name: string, sub: SubscriptionName, found: map<string, seq<string>>, order: seq<string>)
    returns (found': map<string, seq<string>>, order': seq<string>)
    requires UnpackSubscriptionName(name) == Ok(sub) && Parses(name) && sub.event.value != CREATE_EVENT
    requires Listed(found, order) && HoldsGroups(found, names)
    ensures Listed(found', order') && HoldsGroups(found', names + [name])
  {
    AddEvent(found, names, name);
    hide HoldsGroups, Listed, UnpackSubscriptionName, PackSubscriptionName;
    var key := PackSubscriptionName(sub.poolLocator.value, "", sub.poolData);
    found', order' := found, order;
    if key in found {
      found' := found[key := found[key] + [sub.event.value]];
    } else {
      order' := order + [key];
      found' := found[key := [sub.event.value]];
      assert [] + [sub.event.value] == [sub.event.value];
    }
    ListedMore(found, order, key, found'[key]);
  }

  lemma ParsesWhen(name: string)
    ensures var sub := UnpackSubscriptionName(name);
            Parses(name) <==> sub.Ok? && sub.value.poolLocator.Some? && sub.value.event.Some?
  {
    hide UnpackSubscriptionName;
  }

  /** The first loop: group the events, unless a name does not parse. */
  method FindEvents(names: seq<string>) returns (r: Result<Option<FoundEvents>, CodecError>)
    ensures r.Ok? && r.value.Some? ==>
              && (forall name :: name in names ==> Parses(name))
              && r.value.value.Valid() && HoldsGroups(r.value.value.events, names)
    ensures r.Err? || r.value.None? ==>
              exists i: nat :: FirstBad(names, i) && (r.Err? <==> UnpackSubscriptionName(names[i]).Err?)
  {
    var found, order := map[], [];
    NoGroups();
    assert names[..0] == [] && Listed(found, order);
    hide HoldsGroups, Listed, UnpackSubscriptionName, Parses;
    for i := 0 to |names|
      invariant forall k :: 0 <= k < i ==> Parses(names[k])
      invariant Listed(found, order) && HoldsGroups(found, names[..i])
    {
      var parts := UnpackSubscriptionName(names[i]);
      ParsesWhen(names[i]);
      if parts.Err? {
        assert FirstBad(names, i);
        return Err(parts.error);
      }
      if parts.value.poolLocator.None? || parts.value.event.None? {
        assert FirstBad(names, i);
        return Ok(None);
      }
      assert names[..i + 1] == names[..i] + [names[i]];
      if parts.value.event.value == CREATE_EVENT {
        SkipCreate(found, names[..i], names[i]);
      } else {
        found, order := AddToGroup(names[..i], names[i], parts.value, found, order);
      }
    }
    assert names[..|names|] == names;
    return Ok(Some(FoundEvents(found, order)));
  }

  /** The group under a key is as it should be. */
  ghost predicate KeyIsComplete(names: seq<string>, key: string) {
    forall l, d :: ':' !in l && key == GroupKey(l, d) ==> PoolIsComplete(names, l, d)
  }

  lemma OneKeyOneGroup(names: seq<string>, key: string, l: string, d: Option<string>)
    requires ':' !in l && key == GroupKey(l, d)
    ensures KeyIsComplete(names, key) <==> PoolIsComplete(names, l, d)
  {
    forall l', d' | ':' !in l' && key == GroupKey(l', d') ensures l' == l && d' == d {
      PackInjective(l, "", d, l', "", d');
    }
  }

  lemma AllKeysAllGroups(found: FoundEvents, names: seq<string>)
    requires found.Valid() && HoldsGroups(found.events, names)
    requires forall name :: name in names ==> Parses(name)
    ensures Clean(names) <==> forall i :: 0 <= i < |found.order| ==> KeyIsComplete(names, found.order[i])
    ensures forall i :: 0 <= i < |found.order| ==> found.order[i] in found.events
  {
    if forall i :: 0 <= i < |found.order| ==> KeyIsComplete(names, found.order[i]) {
      forall l, d ensures PoolIsComplete(names, l, d) {
        if ':' in l {
          OnlyColonFree(names, l, d);
        } else if EventsOf(names, l, d) != [] {
          assert GroupKey(l, d) in found.order;
          OneKeyOneGroup(names, GroupKey(l, d), l, d);
        }
      }
    }
  }

  /** What the second loop asks of a key decides its group. */
  lemma KeyDecided(names: seq<string>, found: FoundEvents, key: string)
    requires HoldsGroups(found.events, names) && key in found.events
    ensures UnpackSubscriptionName(key).Ok? && UnpackSubscriptionName(key).value.poolLocator.Some?
    ensures var locator := UnpackPoolLocator(UnpackSubscriptionName(key).value.poolLocator.value);
            KeyIsComplete(names, key) <==>
              && locator.Valid()
              && |AllEvents(locator)| == |found.events[key]|
              && forall event :: event in AllEvents(locator) ==> event in found.events[key]
  {
    assert IsGroupKey(key);
    var l, d :| ':' !in l && key == GroupKey(l, d);
    GroupKeyUnpacks(l, d);
    OneKeyOneGroup(names, key, l, d);
    var locator := UnpackPoolLocator(l);
    hide UnpackPoolLocator, AllEvents, UnpackSubscriptionName;
    PermutationIff(AllEvents(locator), found.events[key]);
  }

  /** One round of the second loop. */
  method GroupIsComplete(ghost names: seq<string>, found: FoundEvents, key: string) returns (complete: bool)
    requires HoldsGroups(found.events, names) && key in found.events
    ensures complete <==> KeyIsComplete(names, key)
  {
    KeyDecided(names, found, key);
    hide KeyIsComplete, HoldsGroups, UnpackPoolLocator, AllEvents, UnpackSubscriptionName;
    var events := found.events[key];
    var parts := UnpackSubscriptionName(key).value;
    var locator := UnpackPoolLocator(parts.poolLocator.value);
    if !locator.Valid() {
      return false;
    }
    var allEvents := AllEvents(locator);
    if |allEvents| != |events| {
      return false;
    }
    for i := 0 to |allEvents|
      invariant forall k :: 0 <= k < i ==> allEvents[k] in events
    {
      if allEvents[i] !in events {
        return false;
      }
    }
    return true;
  }

  /** The second loop: every group is to have the events of its kind of pool. */
  method HasIncomplete(ghost names: seq<string>, found: FoundEvents) returns (incomplete: bool)
    requires found.Valid() && HoldsGroups(found.events, names)
    requires forall name :: name in names ==> Parses(name)
    ensures incomplete <==> !Clean(names)
  {
    hide *;
    AllKeysAllGroups(found, names);
    for i := 0 to |found.order|
      invariant forall k :: 0 <= k < i ==> KeyIsComplete(names, found.order[k])
    {
      var complete := GroupIsComplete(names, found, found.order[i]);
      if !complete {
        return true;
      }
    }
    return false;
  }

  /**
   * False exactly when there is nothing to migrate, or every name parses and every pool has the events it
   * is to have. A name whose pool data is not percent-encoded throws, if the names before it parse.
   */
  method MigrationCheck(topic: string, streams: seq<EventStream>, allSubscriptions: seq<Subscription>)
    returns (r: Result<bool, CodecError>)
    ensures (forall k :: 0 <= k < |streams| ==> streams[k].name != topic) ==> r == Ok(false)
    ensures forall i: nat, names :: FirstNamed(streams, topic, i) && NamesOn(allSubscriptions, streams[i].id, names) ==>
              && (r == Ok(false) <==> Clean(names))
              && (r == Err(URIError) <==> exists k: nat :: FirstBad(names, k) && UnpackSubscriptionName(names[k]).Err?)
  {
    LegacyStreamIsFirst(streams, topic);
    var stream := LegacyStream(streams, topic);
    if stream.None? {
      return Ok(false);
    }
    var names := NamesIn(allSubscriptions, stream.value.id);
    OnlyThese(allSubscriptions, stream.value.id);
    hide Clean, FirstBad, NamesOn;
    r := CheckNames(names);
  }

  lemma OnlyThese(subscriptions: seq<Subscription>, stream: string)
    ensures forall names :: NamesOn(subscriptions, stream, names) ==> names == NamesIn(subscriptions, stream)
  {
    NamesInAre(subscriptions, stream);
    forall names | NamesOn(subscriptions, stream, names) ensures names == NamesIn(subscriptions, stream) {
      NamesOnUnique(subscriptions, stream, names, NamesIn(subscriptions, stream));
    }
  }

  method CheckNames(names: seq<string>) returns (r: Result<bool, CodecError>)
    ensures r == Ok(false) <==> Clean(names)
    ensures r == Err(URIError) <==> exists k: nat :: FirstBad(names, k) && UnpackSubscriptionName(names[k]).Err?
  {
    if |names| == 0 {
      return Ok(false);
    }
    var found := FindEvents(names);
    if found.Err? {
      assert found.error == URIError;
      return Err(found.error);
    }
    if found.value.None? {
      return Ok(true);
    }
    var incomplete := HasIncomplete(names, found.value.value);
    return Ok(incomplete);
  }

  // ---- order ----

  lemma {:induction false} EventsConcat(a: seq<string>, b: seq<string>, l: string, d: Option<string>)
    ensures EventsOf(a + b, l, d) == EventsOf(a, l, d) + EventsOf(b, l, d)
  {
    if b == [] {
      assert a + b == a;
    } else {
      assert (a + b)[..|a + b| - 1] == a + b[..|b| - 1];
      EventsConcat(a, b[..|b| - 1], l, d);
    }
  }

  lemma {:induction false} EventsOfPermutation(a: seq<string>, b: seq<string>, l: string, d: Option<string>)
    requires multiset(a) == multiset(b)
    ensures multiset(EventsOf(a, l, d)) == multiset(EventsOf(b, l, d))
    decreases |a|
  {
    if a == [] {
      assert |multiset(b)| == |b|;
    } else {
      var last := |a| - 1;
      var x := a[last];
      assert x in multiset(b);
      var i :| 0 <= i < |b| && b[i] == x;
      DropAtMultiset(a, last);
      DropAtMultiset(b, i);
      assert DropAt(a, last) == a[..last];
      EventsOfPermutation(a[..last], DropAt(b, i), l, d);
      EventsDropAt(a, last, l, d);
      EventsDropAt(b, i, l, d);
    }
  }

  lemma EventsDropAt(names: seq<string>, i: nat, l: string, d: Option<string>)
    requires i < |names|
    ensures multiset(EventsOf(names, l, d)) == multiset(EventsOf(DropAt(names, i), l, d)) + multiset(EventsOf([names[i]], l, d))
  {
    var a, x, b := names[..i], [names[i]], names[i + 1..];
    assert names == a + x + b;
    hide EventsOf;
    EventsConcat(a, b, l, d);
    EventsConcat(a, x, l, d);
    EventsConcat(a + x, b, l, d);
    MiddleOut(EventsOf(a, l, d), EventsOf(x, l, d), EventsOf(b, l, d));
  }

  lemma MiddleOut(a: seq<string>, x: seq<string>, b: seq<string>)
    ensures multiset(a + x + b) == multiset(a + b) + multiset(x)
  {
  }

  /** Whether all is well does not depend on the order of the subscriptions. */
  lemma CleanPermutation(a: seq<string>, b: seq<string>)
    requires multiset(a) == multiset(b)
    ensures Clean(a) <==> Clean(b)
  {
    assert forall name :: name in a <==> name in multiset(a);
    assert forall name :: name in b <==> name in multiset(b);
    forall l, d ensures PoolIsComplete(a, l, d) <==> PoolIsComplete(b, l, d) {
      EventsOfPermutation(a, b, l, d);
      assert EventsOf(a, l, d) == [] <==> |multiset(EventsOf(a, l, d))| == 0;
      assert EventsOf(b, l, d) == [] <==> |multiset(EventsOf(b, l, d))| == 0;
    }
  }

  lemma MalformedSplits()
    ensures Text.Split("fft:l:e:%", ':') == ["fft", "l", "e", "%"]
  {
    hide Text.Split;
    assert "fft:l:e:%" == "fft" + [':'] + "l:e:%";
    Text.SplitAtSeparator("fft", ':', "l:e:%");
    assert "l:e:%" == "l" + [':'] + "e:%";
    Text.SplitAtSeparator("l", ':', "e:%");
    assert "e:%" == "e" + [':'] + "%";
    Text.SplitAtSeparator("e", ':', "%");
    Text.SplitFree("%", ':');
  }

  lemma MalformedThrows()
    ensures UnpackSubscriptionName("fft:l:e:%").Err?
  {
    MalformedSplits();
    hide Text.Split;
    assert UriCoding.DecodeURIComponent("%").None?;
  }

  /** How it is not well does: of two bad names, the first decides between the warning and the exception. */
  lemma BadOrderMatters()
    ensures FirstBad(["x", "fft:l:e:%"], 0) && UnpackSubscriptionName("x").Ok?
    ensures FirstBad(["fft:l:e:%", "x"], 0) && UnpackSubscriptionName("fft:l:e:%").Err?
  {
    MalformedThrows();
    Text.SplitFree("x", ':');
    hide Text.Split;
  }

  // ---- activated pools ----

  /** A pool as it is activated: its packed locator and its data. */
  datatype Pool = Pool(poolLocator: string, poolData: Option<string>)

  function NamesOf(pool: Pool, events: seq<string>): seq<string> {
    if events == [] then []
    else NamesOf(pool, events[..|events| - 1]) + [PackSubscriptionName(pool.poolLocator, events[|events| - 1], pool.poolData)]
  }

  /** The names that activating each pool in turn subscribes to. */
  function ActivatedNames(pools: seq<Pool>): seq<string> {
    if pools == [] then []
    else
      var last := pools[|pools| - 1];
      ActivatedNames(pools[..|pools| - 1]) + NamesOf(last, AllEvents(UnpackPoolLocator(last.poolLocator)))
  }

  /** What one name of a pool is found to say. */
  lemma NameSays(pool: Pool, event: string)
    requires ':' !in pool.poolLocator && ':' !in event
    ensures var name := PackSubscriptionName(pool.poolLocator, event, pool.poolData);
            Parses(name) && UnpackSubscriptionName(name).value == SubscriptionName(Some(pool.poolLocator), Some(event), pool.poolData)
  {
    UnpackPackIff(pool.poolLocator, event, pool.poolData);
  }

  lemma {:induction false} EventsOfNames(pool: Pool, events: seq<string>, l: string, d: Option<string>)
    requires ':' !in pool.poolLocator
    requires forall i :: 0 <= i < |events| ==> ':' !in events[i] && events[i] != CREATE_EVENT
    ensures forall name :: name in NamesOf(pool, events) ==> Parses(name)
    ensures EventsOf(NamesOf(pool, events), l, d) == if pool == Pool(l, d) then events else []
  {
    hide PackSubscriptionName, UnpackSubscriptionName;
    if events != [] {
      var front, last := events[..|events| - 1], events[|events| - 1];
      EventsOfNames(pool, front, l, d);
      NameSays(pool, last);
      var names := NamesOf(pool, events);
      assert names[..|names| - 1] == NamesOf(pool, front);
      assert events == front + [last];
    }
  }

  lemma EventNamesArePlain(locator: PoolLocator)
    ensures forall i :: 0 <= i < |AllEvents(locator)| ==> ':' !in AllEvents(locator)[i] && AllEvents(locator)[i] != CREATE_EVENT
  {
    assert CREATE_EVENT[0] == 'T' && CREATE_EVENT[1] == 'o';
  }

  ghost predicate Activatable(pool: Pool) {
    ':' !in pool.poolLocator && UnpackPoolLocator(pool.poolLocator).Valid()
  }

  lemma {:induction false} ActivatedEvents(pools: seq<Pool>, l: string, d: Option<string>)
    requires NoDup(pools)
    requires forall i :: 0 <= i < |pools| ==> Activatable(pools[i])
    ensures forall name :: name in ActivatedNames(pools) ==> Parses(name)
    ensures EventsOf(ActivatedNames(pools), l, d) == if Pool(l, d) in pools then AllEvents(UnpackPoolLocator(l)) else []
  {
    if pools != [] {
      var front, last := pools[..|pools| - 1], pools[|pools| - 1];
      assert pools == front + [last];
      assert Activatable(last) && last !in front;
      ActivatedEvents(front, l, d);
      hide Parses, EventsOf, AllEvents, UnpackPoolLocator, NamesOf;
      var events := AllEvents(UnpackPoolLocator(last.poolLocator));
      EventNamesArePlain(UnpackPoolLocator(last.poolLocator));
      EventsOfNames(last, events, l, d);
      EventsConcat(ActivatedNames(front), NamesOf(last, events), l, d);
    }
  }

  /** The subscriptions that activating different pools makes need no migration. */
  lemma ActivatedIsClean(pools: seq<Pool>)
    requires NoDup(pools)
    requires forall i :: 0 <= i < |pools| ==> Activatable(pools[i])
    ensures Clean(ActivatedNames(pools))
  {
    hide EventsOf, AllEvents, UnpackPoolLocator, ActivatedNames, Parses;
    forall l, d ensures PoolIsComplete(ActivatedNames(pools), l, d) {
      ActivatedEvents(pools, l, d);
      if Pool(l, d) in pools {
        var i :| 0 <= i < |pools| && pools[i] == Pool(l, d);
        assert Activatable(pools[i]);
      }
    }
    ActivatedEvents(pools, "", None);
  }
}
