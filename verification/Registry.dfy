/**
 * The registry of subscriptions at the blockchain connector, and the calls that read it and then change it:
 * getOrCreateSubscription and deleteSubscriptionByName in src/event-stream/event-stream.service.ts.
 * Any number of calls are under way at once; each looks first and acts on what it saw later.
 */
module Registry {
  import opened Wrappers

  /** What subscriptions are found by. */
  datatype Key = Key(stream: string, name: string)

  datatype Entry = Entry(id: nat, key: Key)

  /** The registry, and the id that the next subscription gets. */
  datatype Upstream = Upstream(entries: seq<Entry>, nextId: nat) {
    ghost predicate Valid() {
      && (forall i :: 0 <= i < |entries| ==> entries[i].id < nextId)
      && (forall i, j :: 0 <= i < j < |entries| ==> entries[i].id != entries[j].id)
    }
  }

  function Count(entries: seq<Entry>, key: Key): nat {
    if entries == [] then 0
    else Count(entries[..|entries| - 1], key) + if entries[|entries| - 1].key == key then 1 else 0
  }

  /** Each stream has each name at most once. */
  ghost predicate Unique(entries: seq<Entry>) {
    forall key :: Count(entries, key) <= 1
  }

  /** The id of the first subscription of the key. */
  function Find(entries: seq<Entry>, key: Key): Option<nat> {
    if entries == [] then None
    else if entries[0].key == key then Some(entries[0].id)
    else Find(entries[1..], key)
  }

  function Remove(entries: seq<Entry>, id: nat): seq<Entry> {
    if entries == [] then []
    else if entries[0].id == id then entries[1..]
    else [entries[0]] + Remove(entries[1..], id)
  }

  function Create(u: Upstream, key: Key): Upstream {
    Upstream(u.entries + [Entry(u.nextId, key)], u.nextId + 1)
  }

  // ---- counting ----

  lemma {:induction false} CountConcat(a: seq<Entry>, b: seq<Entry>, key: Key)
    ensures Count(a + b, key) == Count(a, key) + Count(b, key)
  {
    if b == [] {
      assert a + b == a;
    } else {
      assert (a + b)[..|a + b| - 1] == a + b[..|b| - 1];
      CountConcat(a, b[..|b| - 1], key);
    }
  }

  lemma CountFirst(entries: seq<Entry>, key: Key)
    requires entries != []
    ensures Count(entries, key) == (if entries[0].key == key then 1 else 0) + Count(entries[1..], key)
  {
    assert entries == [entries[0]] + entries[1..];
    CountConcat([entries[0]], entries[1..], key);
    assert [entries[0]][..0] == [];
  }

  lemma {:induction false} FindIff(entries: seq<Entry>, key: Key)
    ensures Find(entries, key).Some? <==> Count(entries, key) > 0
    ensures Find(entries, key).Some? ==> Entry(Find(entries, key).value, key) in entries
  {
    if entries != [] {
      CountFirst(entries, key);
      FindIff(entries[1..], key);
    }
  }

  /** The first entry of the key. */
  ghost predicate FirstWith(entries: seq<Entry>, key: Key, i: nat) {
    i < |entries| && entries[i].key == key && forall k :: 0 <= k < i ==> entries[k].key != key
  }

  /** Of several subscriptions of a key the first in the list is found. */
  lemma {:induction false} FindIsFirst(entries: seq<Entry>, key: Key)
    ensures forall i: nat :: FirstWith(entries, key, i) ==> Find(entries, key) == Some(entries[i].id)
    ensures Find(entries, key).None? <==> forall entry :: entry in entries ==> entry.key != key
  {
    if entries != [] {
      var rest := entries[1..];
      FindIsFirst(rest, key);
      assert entries == [entries[0]] + rest;
      forall i: nat | FirstWith(entries, key, i) ensures Find(entries, key) == Some(entries[i].id) {
        if i > 0 {
          assert entries[0].key != key;
          assert FirstWith(rest, key, i - 1) by {
            assert forall k :: 0 <= k < i - 1 ==> rest[k] == entries[k + 1];
          }
        }
      }
    }
  }

  /** Removing by id takes the entry from its place and leaves the others in their order. */
  lemma {:induction false} RemoveIsDrop(entries: seq<Entry>, i: nat)
    requires i < |entries| && forall k :: 0 <= k < i ==> entries[k].id != entries[i].id
    ensures Remove(entries, entries[i].id) == DropAt(entries, i)
  {
    if i > 0 {
      assert entries[0].id != entries[i].id;
      RemoveIsDrop(entries[1..], i - 1);
      assert entries[1..][i - 1] == entries[i];
      assert DropAt(entries, i) == [entries[0]] + DropAt(entries[1..], i - 1);
    } else {
      assert DropAt(entries, 0) == entries[1..];
    }
  }

  lemma RemovesFirst(u: Upstream, key: Key)
    ensures forall i: nat :: u.Valid() && FirstWith(u.entries, key, i) ==> Remove(u.entries, u.entries[i].id) == DropAt(u.entries, i)
  {
    forall i: nat | u.Valid() && FirstWith(u.entries, key, i) ensures Remove(u.entries, u.entries[i].id) == DropAt(u.entries, i) {
      RemoveIsDrop(u.entries, i);
    }
  }

  lemma {:induction false} RemoveCounts(entries: seq<Entry>, entry: Entry, key: Key)
    requires entry in entries
    requires forall i, j :: 0 <= i < j < |entries| ==> entries[i].id != entries[j].id
    ensures Count(Remove(entries, entry.id), key) == Count(entries, key) - if entry.key == key then 1 else 0
  {
    CountFirst(entries, key);
    if entries[0].id != entry.id {
      RemoveCounts(entries[1..], entry, key);
      CountConcat([entries[0]], Remove(entries[1..], entry.id), key);
      CountConcat([entries[0]], entries[1..], key);
      assert entries == [entries[0]] + entries[1..];
    } else {
      assert entries[0] == entry;
    }
  }

  lemma {:induction false} RemoveMembers(entries: seq<Entry>, id: nat)
    requires forall i, j :: 0 <= i < j < |entries| ==> entries[i].id != entries[j].id
    ensures var r := Remove(entries, id);
            && (forall i, j :: 0 <= i < j < |r| ==> r[i].id != r[j].id)
            && (forall e :: e in r <==> e in entries && e.id != id)
  {
    if entries != [] {
      RemoveMembers(entries[1..], id);
      var rest := entries[1..];
      assert forall e :: e in entries <==> e == entries[0] || e in rest;
      assert forall e :: e in rest ==> e.id != entries[0].id;
    }
  }

  // ---- calls ----

  datatype Kind = GetOrCreate | DeleteByName

  /** A call before its list of subscriptions arrives, after it has, and when it has answered. */
  datatype Phase = Waiting | Looked(found: Option<nat>) | Answered(existed: bool)

  datatype Call = Call(kind: Kind, key: Key, phase: Phase)

  datatype State = State(upstream: Upstream, calls: seq<Call>)

  /** What a call does to the registry, having seen the list. */
  function Act(u: Upstream, kind: Kind, key: Key, found: Option<nat>): Upstream {
    if kind.GetOrCreate? then if found.Some? then u else Create(u, key)
    else if found.Some? then u.(entries := Remove(u.entries, found.value)) else u
  }

  /** The next thing one call does: take the list, or act on what it saw in it. */
  function Advance(s: State, i: nat): State
    requires i < |s.calls|
  {
    var call := s.calls[i];
    match call.phase
    case Waiting => s.(calls := s.calls[i := call.(phase := Looked(Find(s.upstream.entries, call.key)))])
    case Looked(found) =>
      State(Act(s.upstream, call.kind, call.key, found), s.calls[i := call.(phase := Answered(found.Some?))])
    case Answered(_) => s
  }

  /** The calls in the order a schedule gives them turns; turns of calls that are not there are no turns. */
  function Run(s: State, schedule: seq<nat>): State {
    if schedule == [] then s
    else
      var before, i := Run(s, schedule[..|schedule| - 1]), schedule[|schedule| - 1];
      if i < |before.calls| then Advance(before, i) else before
  }

  ghost predicate Fresh(calls: seq<Call>) {
    forall i :: 0 <= i < |calls| ==> calls[i].phase == Waiting
  }

  ghost predicate Done(calls: seq<Call>) {
    forall i :: 0 <= i < |calls| ==> calls[i].phase.Answered?
  }

  /** No two calls are about the same subscription. */
  ghost predicate Apart(calls: seq<Call>) {
    forall i, j :: 0 <= i < j < |calls| ==> calls[i].key != calls[j].key
  }

  /** How many subscriptions a call leaves of the number it starts from. */
  function Left(kind: Kind, before: nat): nat {
    if kind.GetOrCreate? then if before == 0 then 1 else before
    else if before == 0 then 0 else before - 1
  }

  // ---- what calls about different subscriptions do, in whatever order their steps come ----

  /** Where one call stands, told from the registry it started with and the one there is now. */
  ghost predicate CallStands(start: Upstream, now: Upstream, call: Call) {
    var before, count := Count(start.entries, call.key), Count(now.entries, call.key);
    match call.phase
    case Waiting => count == before
    case Looked(found) =>
      && count == before
      && (found.Some? <==> before > 0)
      && (found.Some? ==> Entry(found.value, call.key) in now.entries)
    case Answered(existed) => count == Left(call.kind, before) && (existed <==> before > 0)
  }

  ghost predicate Concerns(calls: seq<Call>, key: Key) {
    exists i :: 0 <= i < |calls| && calls[i].key == key
  }

  ghost predicate Stands(start: Upstream, s: State) {
    && s.upstream.Valid()
    && (forall i :: 0 <= i < |s.calls| ==> CallStands(start, s.upstream, s.calls[i]))
    && (forall key :: !Concerns(s.calls, key) ==> Count(s.upstream.entries, key) == Count(start.entries, key))
  }

  /** Acting for one key changes no count of another, nor any of its entries. */
  ghost predicate Spares(before: Upstream, now: Upstream, key: Key) {
    && Count(now.entries, key) == Count(before.entries, key)
    && forall id :: Entry(id, key) in before.entries ==> Entry(id, key) in now.entries
  }

  lemma CreateCounts(u: Upstream, mine: Key, key: Key)
    requires u.Valid()
    ensures Create(u, mine).Valid()
    ensures Count(Create(u, mine).entries, key) == Count(u.entries, key) + if key == mine then 1 else 0
    ensures key != mine ==> Spares(u, Create(u, mine), key)
  {
    var entry := Entry(u.nextId, mine);
    CountConcat(u.entries, [entry], key);
    assert [entry][..0] == [];
  }

  lemma RemoveKeepsValid(u: Upstream, id: nat)
    requires u.Valid()
    ensures u.(entries := Remove(u.entries, id)).Valid()
  {
    RemoveMembers(u.entries, id);
    var rest := Remove(u.entries, id);
    assert forall i :: 0 <= i < |rest| ==> rest[i] in rest;
  }

  lemma DeleteCounts(u: Upstream, entry: Entry, key: Key)
    requires u.Valid() && entry in u.entries
    ensures var u' := u.(entries := Remove(u.entries, entry.id));
            && u'.Valid()
            && Count(u'.entries, key) == Count(u.entries, key) - (if key == entry.key then 1 else 0)
            && (key != entry.key ==> Spares(u, u', key))
  {
    RemoveKeepsValid(u, entry.id);
    RemoveCounts(u.entries, entry, key);
    RemoveMembers(u.entries, entry.id);
  }

  lemma ActCounts(u: Upstream, kind: Kind, mine: Key, found: Option<nat>, key: Key)
    requires u.Valid()
    requires found.Some? <==> Count(u.entries, mine) > 0
    requires found.Some? ==> Entry(found.value, mine) in u.entries
    ensures var u' := Act(u, kind, mine, found);
            && u'.Valid()
            && (key == mine ==> Count(u'.entries, key) == Left(kind, Count(u.entries, key)))
            && (key != mine ==> Spares(u, u', key))
  {
    hide Count, Remove, Create;
    if kind.GetOrCreate? && found.None? {
      CreateCounts(u, mine, key);
    } else if kind.DeleteByName? && found.Some? {
      DeleteCounts(u, Entry(found.value, mine), key);
    }
  }

  lemma AdvanceConcerns(s: State, i: nat)
    requires i < |s.calls|
    ensures Apart(s.calls) ==> Apart(Advance(s, i).calls)
    ensures forall key :: Concerns(Advance(s, i).calls, key) <==> Concerns(s.calls, key)
  {
    var s' := Advance(s, i);
    forall key ensures Concerns(s'.calls, key) <==> Concerns(s.calls, key) {
      assert forall j :: 0 <= j < |s.calls| ==> s.calls[j].key == s'.calls[j].key;
    }
  }

  lemma AdvanceStands(start: Upstream, s: State, i: nat)
    requires Stands(start, s) && Apart(s.calls) && i < |s.calls|
    ensures Stands(start, Advance(s, i))
  {
    AdvanceConcerns(s, i);
    var s', call := Advance(s, i), s.calls[i];
    hide Count, Act, Find, Concerns;
    assert CallStands(start, s.upstream, call);
    if call.phase.Waiting? {
      FindIff(s.upstream.entries, call.key);
    } else if call.phase.Looked? {
      var found := call.phase.found;
      ActCounts(s.upstream, call.kind, call.key, found, call.key);
      forall key | key != call.key ensures Spares(s.upstream, s'.upstream, key) {
        ActCounts(s.upstream, call.kind, call.key, found, key);
      }
      OthersStand(start, s, i, s'.upstream);
      InConcerns(s.calls, i);
      forall key | !Concerns(s.calls, key) ensures Count(s'.upstream.entries, key) == Count(start.entries, key) {
        assert Spares(s.upstream, s'.upstream, key);
      }
    }
  }

  lemma InConcerns(calls: seq<Call>, i: nat)
    requires i < |calls|
    ensures Concerns(calls, calls[i].key)
  {
  }

  lemma OthersStand(start: Upstream, s: State, i: nat, now: Upstream)
    requires Stands(start, s) && Apart(s.calls) && i < |s.calls|
    requires forall key :: key != s.calls[i].key ==> Spares(s.upstream, now, key)
    ensures forall j :: 0 <= j < |s.calls| && j != i ==> CallStands(start, now, s.calls[j])
  {
    forall j | 0 <= j < |s.calls| && j != i ensures CallStands(start, now, s.calls[j]) {
      assert CallStands(start, s.upstream, s.calls[j]);
      assert Spares(s.upstream, now, s.calls[j].key);
    }
  }

  lemma {:induction false} RunStands(s: State, schedule: seq<nat>)
    requires s.upstream.Valid() && Fresh(s.calls) && Apart(s.calls)
    ensures Stands(s.upstream, Run(s, schedule)) && Apart(Run(s, schedule).calls)
    ensures |Run(s, schedule).calls| == |s.calls|
    ensures forall j :: 0 <= j < |s.calls| ==>
              Run(s, schedule).calls[j].key == s.calls[j].key && Run(s, schedule).calls[j].kind == s.calls[j].kind
    ensures forall key :: Concerns(Run(s, schedule).calls, key) <==> Concerns(s.calls, key)
  {
    if schedule != [] {
      var front, i := schedule[..|schedule| - 1], schedule[|schedule| - 1];
      RunStands(s, front);
      if i < |s.calls| {
        AdvanceStands(s.upstream, Run(s, front), i);
        AdvanceConcerns(Run(s, front), i);
      }
    }
  }

  /**
   * Whatever the order of their steps, calls about different subscriptions leave one subscription for each
   * they were to get or create, one less for each they were to delete, and all others as they were; and
   * each answers whether its subscription was there at the start.
   */
  lemma CallsDoNotDisturb(s: State, schedule: seq<nat>, key: Key)
    requires s.upstream.Valid() && Fresh(s.calls) && Apart(s.calls) && Done(Run(s, schedule).calls)
    ensures var s' := Run(s, schedule);
            && s'.upstream.Valid() && |s'.calls| == |s.calls|
            && (!Concerns(s.calls, key) ==> Count(s'.upstream.entries, key) == Count(s.upstream.entries, key))
            && forall i :: 0 <= i < |s.calls| ==>
                 && Count(s'.upstream.entries, s.calls[i].key) == Left(s.calls[i].kind, Count(s.upstream.entries, s.calls[i].key))
                 && s'.calls[i].phase == Answered(Count(s.upstream.entries, s.calls[i].key) > 0)
  {
    RunStands(s, schedule);
    var s' := Run(s, schedule);
    forall i | 0 <= i < |s.calls|
      ensures Count(s'.upstream.entries, s.calls[i].key) == Left(s.calls[i].kind, Count(s.upstream.entries, s.calls[i].key))
      ensures s'.calls[i].phase == Answered(Count(s.upstream.entries, s.calls[i].key) > 0)
    {
      assert CallStands(s.upstream, s'.upstream, s'.calls[i]);
    }
  }

  /** Calls that only get or create never remove, and add nothing when all they ask for is there. */
  lemma {:induction false} CreationOnlyAdds(s: State, schedule: seq<nat>)
    requires s.upstream.Valid() && Fresh(s.calls) && Apart(s.calls)
    requires forall i :: 0 <= i < |s.calls| ==> s.calls[i].kind.GetOrCreate?
    ensures s.upstream.entries <= Run(s, schedule).upstream.entries
    ensures (forall i :: 0 <= i < |s.calls| ==> Count(s.upstream.entries, s.calls[i].key) > 0) ==>
              Run(s, schedule).upstream == s.upstream
  {
    if schedule != [] {
      var front, i := schedule[..|schedule| - 1], schedule[|schedule| - 1];
      CreationOnlyAdds(s, front);
      RunStands(s, front);
      if i < |s.calls| {
        assert CallStands(s.upstream, Run(s, front).upstream, Run(s, front).calls[i]);
      }
    }
  }

  // ---- how many ----

  /** The subscriptions a call has made, less those it has deleted. */
  function Made(call: Call): int {
    if !call.phase.Answered? then 0
    else if call.kind.GetOrCreate? && !call.phase.existed then 1
    else if call.kind.DeleteByName? && call.phase.existed then -1
    else 0
  }

  function Tally(calls: seq<Call>): int {
    if calls == [] then 0 else Tally(calls[..|calls| - 1]) + Made(calls[|calls| - 1])
  }

  lemma {:induction false} TallyUpdate(calls: seq<Call>, i: nat, call: Call)
    requires i < |calls|
    ensures Tally(calls[i := call]) == Tally(calls) - Made(calls[i]) + Made(call)
  {
    var last := |calls| - 1;
    if i == last {
      assert calls[i := call][..last] == calls[..last];
    } else {
      assert calls[i := call][..last] == calls[..last][i := call];
      TallyUpdate(calls[..last], i, call);
    }
  }

  lemma {:induction false} TallyWaiting(calls: seq<Call>)
    requires Fresh(calls)
    ensures Tally(calls) == 0
  {
    if calls != [] {
      TallyWaiting(calls[..|calls| - 1]);
    }
  }

  lemma {:induction false} RemoveLength(entries: seq<Entry>, entry: Entry)
    requires entry in entries
    ensures |Remove(entries, entry.id)| == |entries| - 1
  {
    if entries[0].id != entry.id {
      RemoveLength(entries[1..], entry);
    }
  }

  /** The registry grows and shrinks by what the calls have made and deleted, no more. */
  lemma {:induction false} SizeIsTally(s: State, schedule: seq<nat>)
    requires s.upstream.Valid() && Fresh(s.calls) && Apart(s.calls)
    ensures |Run(s, schedule).upstream.entries| == |s.upstream.entries| + Tally(Run(s, schedule).calls)
  {
    if schedule == [] {
      TallyWaiting(s.calls);
    } else {
      var front, i := schedule[..|schedule| - 1], schedule[|schedule| - 1];
      SizeIsTally(s, front);
      RunStands(s, front);
      if i < |s.calls| {
        var before := Run(s, front);
        assert CallStands(s.upstream, before.upstream, before.calls[i]);
        TallyUpdate(before.calls, i, Advance(before, i).calls[i]);
        var phase := before.calls[i].phase;
        if phase.Looked? && phase.found.Some? {
          RemoveLength(before.upstream.entries, Entry(phase.found.value, before.calls[i].key));
        }
      }
    }
  }

  // ---- overlapping calls ----

  /** The calls of a key that saw no subscription and are about to act on it. */
  function Poised(calls: seq<Call>, key: Key): nat {
    if calls == [] then 0
    else Poised(calls[..|calls| - 1], key) + if IsPoised(calls[|calls| - 1], key) then 1 else 0
  }

  predicate IsPoised(call: Call, key: Key) {
    call.kind.GetOrCreate? && call.key == key && call.phase == Looked(None)
  }

  /** The calls of a key that answered with a subscription they made. */
  function Creators(calls: seq<Call>, key: Key): nat {
    if calls == [] then 0
    else Creators(calls[..|calls| - 1], key) + if IsCreator(calls[|calls| - 1], key) then 1 else 0
  }

  predicate IsCreator(call: Call, key: Key) {
    call.kind.GetOrCreate? && call.key == key && call.phase == Answered(false)
  }

  /** A call takes its list while the subscription is absent and another call for it is about to make it. */
  ghost predicate Races(s: State, i: nat) {
    && i < |s.calls| && s.calls[i].phase.Waiting? && s.calls[i].kind.GetOrCreate?
    && Count(s.upstream.entries, s.calls[i].key) == 0
    && exists j :: 0 <= j < |s.calls| && IsPoised(s.calls[j], s.calls[i].key)
  }

  ghost predicate NoRace(s: State, schedule: seq<nat>) {
    forall t :: 0 <= t < |schedule| ==> !Races(Run(s, schedule[..t]), schedule[t])
  }

  lemma {:induction false} PoisedUpdate(calls: seq<Call>, i: nat, call: Call, key: Key)
    requires i < |calls|
    ensures Poised(calls[i := call], key)
         == Poised(calls, key) - (if IsPoised(calls[i], key) then 1 else 0) + (if IsPoised(call, key) then 1 else 0)
    ensures Creators(calls[i := call], key)
         == Creators(calls, key) - (if IsCreator(calls[i], key) then 1 else 0) + (if IsCreator(call, key) then 1 else 0)
  {
    var last := |calls| - 1;
    if i == last {
      assert calls[i := call][..last] == calls[..last];
    } else {
      assert calls[i := call][..last] == calls[..last][i := call];
      PoisedUpdate(calls[..last], i, call, key);
    }
  }

  lemma {:induction false} PoisedIff(calls: seq<Call>, key: Key)
    ensures Poised(calls, key) > 0 <==> exists j :: 0 <= j < |calls| && IsPoised(calls[j], key)
  {
    if calls != [] {
      var last := |calls| - 1;
      PoisedIff(calls[..last], key);
      if j :| 0 <= j < |calls| && IsPoised(calls[j], key) {
        assert j < last ==> IsPoised(calls[..last][j], key);
      }
    }
  }

  lemma {:induction false} NonePoised(calls: seq<Call>, key: Key)
    requires Fresh(calls) || Done(calls)
    ensures Poised(calls, key) == 0
    ensures Fresh(calls) ==> Creators(calls, key) == 0
  {
    if calls != [] {
      NonePoised(calls[..|calls| - 1], key);
    }
  }

  lemma {:induction false} RemoveAny(entries: seq<Entry>, id: nat, key: Key)
    ensures Count(Remove(entries, id), key) <= Count(entries, key)
  {
    if entries != [] {
      CountFirst(entries, key);
      if entries[0].id != id {
        RemoveAny(entries[1..], id, key);
        CountFirst(Remove(entries, id), key);
      }
    }
  }

  /** What has been made of a key, and what is about to be. */
  function Claims(s: State, key: Key): nat {
    Count(s.upstream.entries, key) + Poised(s.calls, key)
  }

  /** An action adds to no claim, and takes away only by deleting. */
  lemma ActClaims(u: Upstream, call: Call, key: Key)
    requires u.Valid() && call.phase.Looked?
    ensures var u' := Act(u, call.kind, call.key, call.phase.found);
            && u'.Valid()
            && Count(u'.entries, key) <= Count(u.entries, key) + (if IsPoised(call, key) then 1 else 0)
            && (call.kind.GetOrCreate? ==> Count(u'.entries, key) == Count(u.entries, key) + (if IsPoised(call, key) then 1 else 0))
  {
    var found := call.phase.found;
    if call.kind.GetOrCreate? && found.None? {
      CreateCounts(u, call.key, key);
    } else if call.kind.DeleteByName? && found.Some? {
      RemoveAny(u.entries, found.value, key);
      RemoveKeepsValid(u, found.value);
    }
  }

  /** What there is of a key that no call has made. */
  function Surplus(s: State, key: Key): int {
    Count(s.upstream.entries, key) - Creators(s.calls, key)
  }

  /** Claims grow only when a call takes its list while the subscription is absent. */
  lemma AdvanceClaims(s: State, i: nat, key: Key)
    requires s.upstream.Valid() && i < |s.calls|
    ensures var s', call := Advance(s, i), s.calls[i];
            var looks := call.phase.Waiting? && call.kind.GetOrCreate? && call.key == key && Count(s.upstream.entries, key) == 0;
            && s'.upstream.Valid() && |s'.calls| == |s.calls| && s'.calls[i].kind == call.kind
            && (forall j :: 0 <= j < |s.calls| && j != i ==> s'.calls[j] == s.calls[j])
            && Claims(s', key) <= Claims(s, key) + (if looks then 1 else 0)
            && (call.kind.GetOrCreate? ==> Claims(s', key) == Claims(s, key) + (if looks then 1 else 0))
            && (call.kind.GetOrCreate? ==> Surplus(s', key) == Surplus(s, key))
            && (call.kind.GetOrCreate? ==> Count(s'.upstream.entries, key) >= Count(s.upstream.entries, key))
  {
    var call := s.calls[i];
    PoisedUpdate(s.calls, i, Advance(s, i).calls[i], key);
    hide Count, Poised, Creators, Act, Find;
    if call.phase.Waiting? {
      FindIff(s.upstream.entries, call.key);
    } else if call.phase.Looked? {
      ActClaims(s.upstream, call, key);
    }
  }

  ghost predicate OnlyCreates(calls: seq<Call>) {
    forall i :: 0 <= i < |calls| ==> calls[i].kind.GetOrCreate?
  }

  /**
   * Overlapping calls, of any schedule: the registry ends with what it had of each key and one more for
   * every call that found none.
   */
  lemma {:induction false} CountIsCreators(s: State, schedule: seq<nat>, key: Key)
    requires s.upstream.Valid() && Fresh(s.calls) && OnlyCreates(s.calls)
    ensures var s' := Run(s, schedule);
            && s'.upstream.Valid() && OnlyCreates(s'.calls) && |s'.calls| == |s.calls|
            && Count(s'.upstream.entries, key) == Count(s.upstream.entries, key) + Creators(s'.calls, key)
  {
    if schedule == [] {
      NonePoised(s.calls, key);
    } else {
      var front, i := schedule[..|schedule| - 1], schedule[|schedule| - 1];
      CountIsCreators(s, front, key);
      hide Count, Creators, Advance;
      if i < |s.calls| {
        AdvanceClaims(Run(s, front), i, key);
      }
    }
  }

  lemma {:induction false} KeysStay(s: State, schedule: seq<nat>)
    ensures |Run(s, schedule).calls| == |s.calls|
    ensures forall j :: 0 <= j < |s.calls| ==> Run(s, schedule).calls[j].key == s.calls[j].key
  {
    if schedule != [] {
      KeysStay(s, schedule[..|schedule| - 1]);
    }
  }

  /** The call has found or made its subscription. */
  predicate FoundOrMade(call: Call) {
    call.phase.Answered? || (call.phase.Looked? && call.phase.found.Some?)
  }

  /** A subscription that a creating call has found or made is there. */
  lemma {:induction false} ServedAreThere(s: State, schedule: seq<nat>)
    requires s.upstream.Valid() && Fresh(s.calls) && OnlyCreates(s.calls)
    ensures forall j :: 0 <= j < |Run(s, schedule).calls| && FoundOrMade(Run(s, schedule).calls[j]) ==>
              Count(Run(s, schedule).upstream.entries, Run(s, schedule).calls[j].key) > 0
  {
    if schedule != [] {
      var front, i := schedule[..|schedule| - 1], schedule[|schedule| - 1];
      ServedAreThere(s, front);
      CountIsCreators(s, front, Key("", ""));
      var before := Run(s, front);
      if i < |before.calls| {
        FindIff(before.upstream.entries, before.calls[i].key);
        forall j | 0 <= j < |before.calls| && FoundOrMade(Advance(before, i).calls[j])
          ensures Count(Advance(before, i).upstream.entries, Advance(before, i).calls[j].key) > 0
        {
          AdvanceClaims(before, i, before.calls[j].key);
          if j == i && before.calls[i].phase == Looked(None) {
            CreateCounts(before.upstream, before.calls[i].key, before.calls[i].key);
          }
        }
      }
    }
  }

  ghost predicate SingleClaims(s: State) {
    forall key :: Claims(s, key) <= 1
  }

  /** One turn keeps single claims single unless it races; and claims of creating calls never go down. */
  lemma AdvanceSingle(s: State, i: nat)
    requires s.upstream.Valid() && i < |s.calls|
    ensures SingleClaims(s) && !Races(s, i) ==> SingleClaims(Advance(s, i))
    ensures s.calls[i].kind.GetOrCreate? && SingleClaims(Advance(s, i)) ==> SingleClaims(s) && !Races(s, i)
  {
    var call := s.calls[i];
    PoisedIff(s.calls, call.key);
    forall key
      ensures SingleClaims(s) && !Races(s, i) ==> Claims(Advance(s, i), key) <= 1
      ensures call.kind.GetOrCreate? ==> Claims(s, key) <= Claims(Advance(s, i), key)
    {
      AdvanceClaims(s, i, key);
      assert SingleClaims(s) ==> Claims(s, key) <= 1;
    }
    if call.kind.GetOrCreate? && SingleClaims(Advance(s, i)) {
      forall key ensures Claims(s, key) <= 1 {
        assert Claims(Advance(s, i), key) <= 1;
      }
      AdvanceClaims(s, i, call.key);
      assert Claims(Advance(s, i), call.key) <= 1;
    }
  }

  lemma NoRaceFront(s: State, schedule: seq<nat>)
    requires schedule != []
    ensures var last := |schedule| - 1;
            NoRace(s, schedule) <==> NoRace(s, schedule[..last]) && !Races(Run(s, schedule[..last]), schedule[last])
  {
    var last := |schedule| - 1;
    assert forall t :: 0 <= t < last ==> schedule[..last][..t] == schedule[..t];
  }

  lemma StartsSingle(s: State)
    requires Unique(s.upstream.entries) && Fresh(s.calls)
    ensures SingleClaims(s)
  {
    forall key ensures Claims(s, key) <= 1 {
      NonePoised(s.calls, key);
    }
  }

  /** Calls of any kind on any names keep names unique at every moment as long as none races. */
  lemma {:induction false} KeepsUnique(s: State, schedule: seq<nat>)
    requires s.upstream.Valid() && Unique(s.upstream.entries) && Fresh(s.calls) && NoRace(s, schedule)
    ensures Run(s, schedule).upstream.Valid() && |Run(s, schedule).calls| == |s.calls|
    ensures SingleClaims(Run(s, schedule)) && Unique(Run(s, schedule).upstream.entries)
  {
    if schedule == [] {
      StartsSingle(s);
    } else {
      var front, i := schedule[..|schedule| - 1], schedule[|schedule| - 1];
      NoRaceFront(s, schedule);
      KeepsUnique(s, front);
      if i < |s.calls| {
        AdvanceSingle(Run(s, front), i);
        AdvanceClaims(Run(s, front), i, Key("", ""));
      }
    }
    forall key ensures Count(Run(s, schedule).upstream.entries, key) <= 1 {
      assert Claims(Run(s, schedule), key) <= 1;
    }
  }

  lemma {:induction false} SingleMeansNoRace(s: State, schedule: seq<nat>)
    requires s.upstream.Valid() && Fresh(s.calls) && OnlyCreates(s.calls) && SingleClaims(Run(s, schedule))
    ensures NoRace(s, schedule)
  {
    if schedule != [] {
      var front, i := schedule[..|schedule| - 1], schedule[|schedule| - 1];
      CountIsCreators(s, front, Key("", ""));
      if i < |s.calls| {
        AdvanceSingle(Run(s, front), i);
      }
      SingleMeansNoRace(s, front);
      NoRaceFront(s, schedule);
    }
  }

  /**
   * Overlapping calls that get or create, any number of them for the same name, end with unique names if and
   * only if no call took its list while its subscription was absent and another was about to make it.
   */
  lemma UniqueIffNoRace(s: State, schedule: seq<nat>)
    requires s.upstream.Valid() && Unique(s.upstream.entries) && Fresh(s.calls) && OnlyCreates(s.calls)
    requires Done(Run(s, schedule).calls)
    ensures Unique(Run(s, schedule).upstream.entries) <==> NoRace(s, schedule)
  {
    if NoRace(s, schedule) {
      KeepsUnique(s, schedule);
    }
    if Unique(Run(s, schedule).upstream.entries) {
      forall key ensures Claims(Run(s, schedule), key) <= 1 {
        NonePoised(Run(s, schedule).calls, key);
      }
      SingleMeansNoRace(s, schedule);
    }
  }

  /** Calls about different subscriptions never race. */
  lemma ApartNeverRace(s: State, schedule: seq<nat>)
    requires s.upstream.Valid() && Fresh(s.calls) && Apart(s.calls)
    ensures NoRace(s, schedule)
  {
    forall t | 0 <= t < |schedule| ensures !Races(Run(s, schedule[..t]), schedule[t]) {
      RunStands(s, schedule[..t]);
    }
  }

  /** Two calls for the same subscription, each looking before the other has created it, make it twice. */
  lemma OverlappingCallsDuplicate(key: Key)
    ensures var call := Call(GetOrCreate, key, Waiting);
            var s := Run(State(Upstream([], 0), [call, call]), [0, 1, 0, 1]);
            Done(s.calls) && Count(s.upstream.entries, key) == 2
  {
    var call := Call(GetOrCreate, key, Waiting);
    var s := State(Upstream([], 0), [call, call]);
    var all := [0, 1, 0, 1];
    assert all[..3] == [0, 1, 0] && [0, 1, 0][..2] == [0, 1] && [0, 1][..1] == [0] && [0][..0] == [];
    var s1 := Advance(s, 0);
    assert Run(s, [0]) == s1;
    var s2 := Advance(s1, 1);
    assert Run(s, [0, 1]) == s2;
    var s3 := Advance(s2, 0);
    assert Run(s, [0, 1, 0]) == s3;
    assert Run(s, all) == Advance(s3, 1);
    var entries := [Entry(0, key), Entry(1, key)];
    assert Run(s, all).upstream.entries == entries;
    assert entries[..1] == [Entry(0, key)] && [Entry(0, key)][..0] == [];
    assert Count([Entry(0, key)], key) == 1;
  }

  // ---- the calls one at a time ----

  /** The registry as one caller sees it when no other call is under way. */
  class EventStreamService {
    var upstream: Upstream

    constructor (upstream: Upstream)
      ensures this.upstream == upstream
    {
      this.upstream := upstream;
    }

    method GetOrCreateSubscription(streamId: string, name: string) returns (id: nat)
      modifies this
      ensures forall i: nat :: FirstWith(old(upstream).entries, Key(streamId, name), i) ==>
                id == old(upstream).entries[i].id && upstream == old(upstream)
      ensures (forall entry :: entry in old(upstream).entries ==> entry.key != Key(streamId, name)) ==>
                && id == old(upstream).nextId
                && upstream == Upstream(old(upstream).entries + [Entry(id, Key(streamId, name))], id + 1)
      ensures upstream == Act(old(upstream), GetOrCreate, Key(streamId, name), Find(old(upstream).entries, Key(streamId, name)))
      ensures old(upstream).Valid() ==> Entry(id, Key(streamId, name)) in upstream.entries
    {
      var sub := Find(upstream.entries, Key(streamId, name));
      FindIff(upstream.entries, Key(streamId, name));
      FindIsFirst(upstream.entries, Key(streamId, name));
      if sub.Some? {
        return sub.value;
      }
      id := upstream.nextId;
      upstream := Create(upstream, Key(streamId, name));
      assert upstream.entries[|upstream.entries| - 1] == Entry(id, Key(streamId, name));
    }

    method DeleteSubscriptionByName(streamId: string, name: string) returns (deleted: bool)
      modifies this
      ensures forall i: nat :: old(upstream).Valid() && FirstWith(old(upstream).entries, Key(streamId, name), i) ==>
                upstream == old(upstream).(entries := DropAt(old(upstream).entries, i))
      ensures !deleted ==> upstream == old(upstream)
      ensures upstream == Act(old(upstream), DeleteByName, Key(streamId, name), Find(old(upstream).entries, Key(streamId, name)))
      ensures deleted <==> exists entry :: entry in old(upstream).entries && entry.key == Key(streamId, name)
    {
      var sub := Find(upstream.entries, Key(streamId, name));
      FindIff(upstream.entries, Key(streamId, name));
      FindIsFirst(upstream.entries, Key(streamId, name));
      RemovesFirst(upstream, Key(streamId, name));
      if sub.None? {
        return false;
      }
      upstream := upstream.(entries := Remove(upstream.entries, sub.value));
      return true;
    }
  }
}
