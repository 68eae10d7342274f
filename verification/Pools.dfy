/** Activation and deactivation of pools: activatePool and deactivatePool in src/tokens/tokens.service.ts. */
module Pools {
  import opened Wrappers
  import opened Registry
  import AbiMapper
  import InterfaceCheck
  import InterfaceSupport
  import Migration
  import TokensUtil

  type Pool = Migration.Pool

  /** The names a pool is subscribed under, one for each event of its kind of token. */
  function Names(pool: Pool): seq<string> {
    Migration.NamesOf(pool, Migration.AllEvents(TokensUtil.UnpackPoolLocator(pool.poolLocator)))
  }

  /** The calls made together for a pool, none of which has begun. */
  function CallsFor(kind: Kind, stream: string, names: seq<string>): (calls: seq<Call>)
    ensures |calls| == |names|
    ensures forall i :: 0 <= i < |names| ==> calls[i] == Call(kind, Key(stream, names[i]), Waiting)
  {
    seq(|names|, i requires 0 <= i < |names| => Call(kind, Key(stream, names[i]), Waiting))
  }

  // ---- names ----

  lemma {:induction false} NamesAt(pool: Pool, events: seq<string>)
    ensures |Migration.NamesOf(pool, events)| == |events|
    ensures forall i :: 0 <= i < |events| ==>
              Migration.NamesOf(pool, events)[i] == TokensUtil.PackSubscriptionName(pool.poolLocator, events[i], pool.poolData)
  {
    if events != [] {
      NamesAt(pool, events[..|events| - 1]);
    }
  }

  /** Names of a pool differ from each other and from those of any other pool. */
  lemma NamesApart(p: Pool, q: Pool, i: nat, j: nat)
    requires Migration.Activatable(p) && Migration.Activatable(q) && i < |Names(p)| && j < |Names(q)|
    ensures Names(p)[i] == Names(q)[j] ==> p == q && i == j
  {
    var ps := Migration.AllEvents(TokensUtil.UnpackPoolLocator(p.poolLocator));
    var qs := Migration.AllEvents(TokensUtil.UnpackPoolLocator(q.poolLocator));
    NamesAt(p, ps);
    NamesAt(q, qs);
    Migration.EventNamesArePlain(TokensUtil.UnpackPoolLocator(p.poolLocator));
    Migration.EventNamesArePlain(TokensUtil.UnpackPoolLocator(q.poolLocator));
    TokensUtil.PackInjective(p.poolLocator, ps[i], p.poolData, q.poolLocator, qs[j], q.poolData);
  }

  lemma PoolCallsApart(kind: Kind, stream: string, pool: Pool)
    requires Migration.Activatable(pool)
    ensures Fresh(CallsFor(kind, stream, Names(pool))) && Apart(CallsFor(kind, stream, Names(pool)))
  {
    var calls := CallsFor(kind, stream, Names(pool));
    forall i, j | 0 <= i < j < |calls| ensures calls[i].key != calls[j].key {
      NamesApart(pool, pool, i, j);
    }
  }

  /** A key that a pool is subscribed under on a stream. */
  ghost predicate Owns(stream: string, pool: Pool, key: Key) {
    key.stream == stream && key.name in Names(pool)
  }

  lemma OwnsIsConcerns(kind: Kind, stream: string, pool: Pool, key: Key)
    ensures Concerns(CallsFor(kind, stream, Names(pool)), key) <==> Owns(stream, pool, key)
  {
    var calls, names := CallsFor(kind, stream, Names(pool)), Names(pool);
    if key.stream == stream && key.name in names {
      var i :| 0 <= i < |names| && names[i] == key.name;
      assert calls[i].key == key;
    }
  }

  lemma OnlyOneOwner(stream: string, p: Pool, stream': string, q: Pool, key: Key)
    requires Migration.Activatable(p) && Migration.Activatable(q)
    requires Owns(stream, p, key) && Owns(stream', q, key)
    ensures stream == stream' && p == q
  {
    var i :| 0 <= i < |Names(p)| && Names(p)[i] == key.name;
    var j :| 0 <= j < |Names(q)| && Names(q)[j] == key.name;
    NamesApart(p, q, i, j);
  }

  // ---- one operation ----

  /** What an operation does to the registry when its calls take turns by a schedule. */
  function Served(u: Upstream, kind: Kind, stream: string, pool: Pool, schedule: seq<nat>): State {
    Run(State(u, CallsFor(kind, stream, Names(pool))), schedule)
  }

  /** Counts after an operation that has finished: its own keys are settled, all others untouched. */
  lemma ServedCounts(u: Upstream, kind: Kind, stream: string, pool: Pool, schedule: seq<nat>, key: Key)
    requires u.Valid() && Migration.Activatable(pool) && Done(Served(u, kind, stream, pool, schedule).calls)
    ensures var u' := Served(u, kind, stream, pool, schedule).upstream;
            && u'.Valid()
            && Count(u'.entries, key) == (if Owns(stream, pool, key) then Left(kind, Count(u.entries, key)) else Count(u.entries, key))
  {
    var s := State(u, CallsFor(kind, stream, Names(pool)));
    PoolCallsApart(kind, stream, pool);
    OwnsIsConcerns(kind, stream, pool, key);
    hide Names;
    CallsDoNotDisturb(s, schedule, key);
    if Owns(stream, pool, key) {
      var i :| 0 <= i < |s.calls| && s.calls[i].key == key;
    }
  }

  lemma ServedKeepsUnique(u: Upstream, kind: Kind, stream: string, pool: Pool, schedule: seq<nat>)
    requires u.Valid() && Unique(u.entries) && Migration.Activatable(pool) && Done(Served(u, kind, stream, pool, schedule).calls)
    ensures Unique(Served(u, kind, stream, pool, schedule).upstream.entries)
  {
    PoolCallsApart(kind, stream, pool);
    ApartNeverRace(State(u, CallsFor(kind, stream, Names(pool))), schedule);
    KeepsUnique(State(u, CallsFor(kind, stream, Names(pool))), schedule);
  }

  /** The names of a pool that a stream does not have. */
  function Missing(entries: seq<Entry>, stream: string, names: seq<string>): nat {
    if names == [] then 0
    else
      var last := names[|names| - 1];
      Missing(entries, stream, names[..|names| - 1]) + if Count(entries, Key(stream, last)) == 0 then 1 else 0
  }

  lemma {:induction false} TallyIsMissing(entries: seq<Entry>, stream: string, names: seq<string>, calls: seq<Call>)
    requires |calls| == |names|
    requires forall i :: 0 <= i < |calls| ==>
               calls[i] == Call(GetOrCreate, Key(stream, names[i]), Answered(Count(entries, Key(stream, names[i])) > 0))
    ensures Tally(calls) == Missing(entries, stream, names)
  {
    if names != [] {
      TallyIsMissing(entries, stream, names[..|names| - 1], calls[..|calls| - 1]);
    }
  }

  lemma NamesCount(pool: Pool)
    ensures |Names(pool)| == if TokensUtil.UnpackPoolLocator(pool.poolLocator).tokenType == Some(TokensUtil.FUNGIBLE) then 2 else 3
  {
    var locator := TokensUtil.UnpackPoolLocator(pool.poolLocator);
    assert |Migration.AllEvents(locator)| == if locator.tokenType == Some(TokensUtil.FUNGIBLE) then 2 else 3;
    NamesAt(pool, Migration.AllEvents(locator));
  }

  /** How each call of an activation ends. */
  lemma ActivationCalls(u: Upstream, stream: string, pool: Pool, schedule: seq<nat>)
    requires u.Valid() && Migration.Activatable(pool) && Done(Served(u, GetOrCreate, stream, pool, schedule).calls)
    ensures var s, names := Served(u, GetOrCreate, stream, pool, schedule), Names(pool);
            && |s.calls| == |names|
            && forall i :: 0 <= i < |names| ==>
                 && s.calls[i] == Call(GetOrCreate, Key(stream, names[i]), Answered(Count(u.entries, Key(stream, names[i])) > 0))
                 && Count(s.upstream.entries, Key(stream, names[i])) > 0
  {
    PoolCallsApart(GetOrCreate, stream, pool);
    hide Names;
    var s := State(u, CallsFor(GetOrCreate, stream, Names(pool)));
    RunStands(s, schedule);
    forall i | 0 <= i < |s.calls|
      ensures Run(s, schedule).calls[i].phase == Answered(Count(u.entries, s.calls[i].key) > 0)
      ensures Count(Run(s, schedule).upstream.entries, s.calls[i].key) > 0
    {
      CallsDoNotDisturb(s, schedule, s.calls[i].key);
    }
  }

  /**
   * Activation keeps every subscription there is and adds one for each of the pool's names that is missing,
   * whatever turns its calls take: two for a new fungible pool, three for a new non-fungible one.
   */
  lemma ActivationAddsMissing(u: Upstream, stream: string, pool: Pool, schedule: seq<nat>)
    requires u.Valid() && Migration.Activatable(pool) && Done(Served(u, GetOrCreate, stream, pool, schedule).calls)
    ensures var u' := Served(u, GetOrCreate, stream, pool, schedule).upstream;
            && u.entries <= u'.entries
            && |u'.entries| == |u.entries| + Missing(u.entries, stream, Names(pool))
            && forall i :: 0 <= i < |Names(pool)| ==> Count(u'.entries, Key(stream, Names(pool)[i])) > 0
    ensures |Names(pool)| == if TokensUtil.UnpackPoolLocator(pool.poolLocator).tokenType == Some(TokensUtil.FUNGIBLE) then 2 else 3
  {
    NamesCount(pool);
    ActivationCalls(u, stream, pool, schedule);
    PoolCallsApart(GetOrCreate, stream, pool);
    hide Names, Migration.Activatable, Count;
    var s := State(u, CallsFor(GetOrCreate, stream, Names(pool)));
    CreationOnlyAdds(s, schedule);
    SizeIsTally(s, schedule);
    TallyIsMissing(u.entries, stream, Names(pool), Run(s, schedule).calls);
  }

  /** Activating an active pool changes nothing, even halfway through. */
  lemma ActivationIsIdempotent(u: Upstream, stream: string, pool: Pool, schedule: seq<nat>, again: seq<nat>)
    requires u.Valid() && Migration.Activatable(pool) && Done(Served(u, GetOrCreate, stream, pool, schedule).calls)
    ensures var u' := Served(u, GetOrCreate, stream, pool, schedule).upstream;
            Served(u', GetOrCreate, stream, pool, again).upstream == u'
  {
    var u' := Served(u, GetOrCreate, stream, pool, schedule).upstream;
    PoolCallsApart(GetOrCreate, stream, pool);
    ActivationAddsMissing(u, stream, pool, schedule);
    RunStands(State(u, CallsFor(GetOrCreate, stream, Names(pool))), schedule);
    CreationOnlyAdds(State(u', CallsFor(GetOrCreate, stream, Names(pool))), again);
  }

  /** Deactivating a pool that was not active and was then activated leaves as many of every subscription as before. */
  lemma DeactivationUndoesActivation(u: Upstream, stream: string, pool: Pool, schedule: seq<nat>, later: seq<nat>, key: Key)
    requires u.Valid() && Migration.Activatable(pool) && Missing(u.entries, stream, Names(pool)) == |Names(pool)|
    requires Done(Served(u, GetOrCreate, stream, pool, schedule).calls)
    requires Done(Served(Served(u, GetOrCreate, stream, pool, schedule).upstream, DeleteByName, stream, pool, later).calls)
    ensures var u' := Served(u, GetOrCreate, stream, pool, schedule).upstream;
            Count(Served(u', DeleteByName, stream, pool, later).upstream.entries, key) == Count(u.entries, key)
  {
    var u' := Served(u, GetOrCreate, stream, pool, schedule).upstream;
    ServedCounts(u, GetOrCreate, stream, pool, schedule, key);
    ServedCounts(u', DeleteByName, stream, pool, later, key);
    if Owns(stream, pool, key) {
      MissingAll(u.entries, stream, Names(pool), key.name);
    }
  }

  lemma {:induction false} MissingAll(entries: seq<Entry>, stream: string, names: seq<string>, name: string)
    requires Missing(entries, stream, names) >= |names| && name in names
    ensures Count(entries, Key(stream, name)) == 0
    ensures Missing(entries, stream, names) == |names|
  {
    var front, last := names[..|names| - 1], names[|names| - 1];
    MissingBound(entries, stream, front);
    assert names == front + [last];
    if name in front {
      MissingAll(entries, stream, front, name);
    }
  }

  lemma {:induction false} MissingBound(entries: seq<Entry>, stream: string, names: seq<string>)
    ensures Missing(entries, stream, names) <= |names|
  {
    if names != [] {
      MissingBound(entries, stream, names[..|names| - 1]);
    }
  }

  // ---- overlapping activations ----

  /** The calls of several activations that are under way at once, of the same pool or of different ones. */
  function CallsOfAll(activations: seq<(string, Pool)>): (calls: seq<Call>)
    ensures Fresh(calls) && OnlyCreates(calls)
  {
    if activations == [] then []
    else
      var (stream, pool) := activations[|activations| - 1];
      CallsOfAll(activations[..|activations| - 1]) + CallsFor(GetOrCreate, stream, Names(pool))
  }

  lemma {:induction false} CallsOfEach(activations: seq<(string, Pool)>, k: nat, name: string) returns (j: nat)
    requires k < |activations| && name in Names(activations[k].1)
    ensures j < |CallsOfAll(activations)| && CallsOfAll(activations)[j].key == Key(activations[k].0, name)
  {
    hide Names;
    var last := |activations| - 1;
    var front := CallsOfAll(activations[..last]);
    var names := Names(activations[last].1);
    if k < last {
      j := CallsOfEach(activations[..last], k, name);
      assert CallsOfAll(activations)[j] == front[j];
    } else {
      var n :| 0 <= n < |names| && names[n] == name;
      j := |front| + n;
      assert CallsOfAll(activations)[j] == CallsFor(GetOrCreate, activations[last].0, names)[n];
    }
  }

  /**
   * Activations that overlap, any number of one pool or of many: each pool ends with all its subscriptions,
   * each of them as often as it was there and once more for every call that found none; and each is there
   * once if and only if no call took its list while its subscription was absent and about to be made.
   */
  lemma OverlappingActivations(u: Upstream, activations: seq<(string, Pool)>, schedule: seq<nat>, key: Key)
    requires u.Valid() && Done(Run(State(u, CallsOfAll(activations)), schedule).calls)
    ensures var s := State(u, CallsOfAll(activations));
            var s' := Run(s, schedule);
            && Count(s'.upstream.entries, key) == Count(u.entries, key) + Creators(s'.calls, key)
            && (Unique(u.entries) ==> (Unique(s'.upstream.entries) <==> NoRace(s, schedule)))
            && forall k, name :: 0 <= k < |activations| && name in Names(activations[k].1) ==>
                 Count(s'.upstream.entries, Key(activations[k].0, name)) > 0
  {
    var s := State(u, CallsOfAll(activations));
    var s' := Run(s, schedule);
    CountIsCreators(s, schedule, key);
    if Unique(u.entries) {
      UniqueIffNoRace(s, schedule);
    }
    ServedAreThere(s, schedule);
    KeysStay(s, schedule);
    hide Names, NoRace, Unique, Creators, Count;
    forall k, name | 0 <= k < |activations| && name in Names(activations[k].1)
      ensures Count(s'.upstream.entries, Key(activations[k].0, name)) > 0
    {
      var j := CallsOfEach(activations, k, name);
      assert FoundOrMade(s'.calls[j]);
    }
  }

  // ---- outcomes ----

  datatype PoolError = InvalidPoolLocator | UnknownSchema | NoListenersFound

  /**
   * activatePool, as far as its subscriptions: an invalid locator is refused before anything else, and then a
   * schema that no ABI goes by.
   */
  function ActivatePool(u: Upstream, stream: string, pool: Pool, schedule: seq<nat>): (Upstream, Option<PoolError>) {
    var locator := TokensUtil.UnpackPoolLocator(pool.poolLocator);
    if !locator.Valid() then (u, Some(InvalidPoolLocator))
    else if InterfaceSupport.SchemaNamed(locator.schema.value).None? then (u, Some(UnknownSchema))
    else (Served(u, GetOrCreate, stream, pool, schedule).upstream, None)
  }

  /** deactivatePool: an invalid locator is refused before anything else, and no subscription at all is an error after. */
  function DeactivatePool(u: Upstream, stream: string, pool: Pool, schedule: seq<nat>): (Upstream, Option<PoolError>) {
    if !TokensUtil.UnpackPoolLocator(pool.poolLocator).Valid() then (u, Some(InvalidPoolLocator))
    else
      var s := Served(u, DeleteByName, stream, pool, schedule);
      (s.upstream, if forall i :: 0 <= i < |s.calls| ==> s.calls[i].phase == Answered(false) then Some(NoListenersFound) else None)
  }

  /** An incomplete locator is refused by both operations, and by nothing else is one called invalid; then nothing changes. */
  lemma InvalidIff(u: Upstream, stream: string, pool: Pool, schedule: seq<nat>)
    ensures ActivatePool(u, stream, pool, schedule).1 == Some(InvalidPoolLocator) <==> !InterfaceCheck.Complete(pool.poolLocator)
    ensures DeactivatePool(u, stream, pool, schedule).1 == Some(InvalidPoolLocator) <==> !InterfaceCheck.Complete(pool.poolLocator)
    ensures !InterfaceCheck.Complete(pool.poolLocator) ==>
              ActivatePool(u, stream, pool, schedule).0 == u && DeactivatePool(u, stream, pool, schedule).0 == u
  {
    InterfaceCheck.RefusedIff(pool.poolLocator, []);
    hide Served, InterfaceSupport.SchemaNamed, InterfaceCheck.Complete, TokensUtil.UnpackPoolLocator, AbiMapper.AllMethods;
  }

  /** With a complete locator, a pool is activated exactly when its schema is one of five. */
  lemma ActivatesIff(u: Upstream, stream: string, pool: Pool, schedule: seq<nat>)
    requires TokensUtil.UnpackPoolLocator(pool.poolLocator).Valid()
    ensures var schema := TokensUtil.UnpackPoolLocator(pool.poolLocator).schema.value;
            var (u', error) := ActivatePool(u, stream, pool, schedule);
            if schema in ["ERC20WithData", "ERC20NoData", "ERC721WithDataV2", "ERC721WithData", "ERC721NoData"]
            then error.None? && u' == Served(u, GetOrCreate, stream, pool, schedule).upstream
            else error == Some(UnknownSchema) && u' == u
  {
    hide Served, TokensUtil.UnpackPoolLocator;
  }

  /** A pool is activated under one name for each event of its kind of token: two if it is fungible, else three. */
  lemma NamesAre(pool: Pool, i: nat)
    requires i < |Names(pool)|
    ensures var fungible := TokensUtil.UnpackPoolLocator(pool.poolLocator).tokenType == Some("fungible");
            var events := if fungible then ["Transfer", "Approval"] else ["Transfer", "Approval", "ApprovalForAll"];
            && |Names(pool)| == |events|
            && Names(pool)[i] == TokensUtil.PackSubscriptionName(pool.poolLocator, events[i], pool.poolData)
  {
    hide TokensUtil.UnpackPoolLocator, TokensUtil.PackSubscriptionName, Migration.NamesOf;
    NamesAt(pool, Migration.AllEvents(TokensUtil.UnpackPoolLocator(pool.poolLocator)));
  }

  /** The error for no listeners is raised exactly when the stream has none of the pool's names; then nothing changes. */
  lemma NoListenersIff(u: Upstream, stream: string, pool: Pool, schedule: seq<nat>)
    requires u.Valid() && Migration.Activatable(pool) && Done(Served(u, DeleteByName, stream, pool, schedule).calls)
    ensures var (u', error) := DeactivatePool(u, stream, pool, schedule);
            && (error == Some(NoListenersFound) <==> forall name :: name in Names(pool) ==> Count(u.entries, Key(stream, name)) == 0)
            && (error.Some? ==> error.value == NoListenersFound && forall key :: Count(u'.entries, key) == Count(u.entries, key))
  {
    var s := State(u, CallsFor(DeleteByName, stream, Names(pool)));
    PoolCallsApart(DeleteByName, stream, pool);
    hide Names;
    RunStands(s, schedule);
    forall i | 0 <= i < |s.calls|
      ensures Run(s, schedule).calls[i].phase == Answered(Count(u.entries, Key(stream, Names(pool)[i])) > 0)
    {
      CallsDoNotDisturb(s, schedule, s.calls[i].key);
    }
    forall key ensures Count(Run(s, schedule).upstream.entries, key)
                    == (if Owns(stream, pool, key) then Left(DeleteByName, Count(u.entries, key)) else Count(u.entries, key)) {
      ServedCounts(u, DeleteByName, stream, pool, schedule, key);
    }
  }

  // ---- histories ----

  /** One activation or deactivation, and the turns its calls take. */
  datatype Operation = Operation(kind: Kind, stream: string, pool: Pool, schedule: seq<nat>)

  function After(u: Upstream, ops: seq<Operation>): Upstream {
    if ops == [] then u
    else
      var op := ops[|ops| - 1];
      Served(After(u, ops[..|ops| - 1]), op.kind, op.stream, op.pool, op.schedule).upstream
  }

  /** Every operation is on a valid pool and has finished before the next. */
  ghost predicate Complete(u: Upstream, ops: seq<Operation>) {
    ops == [] || (
      var front, op := ops[..|ops| - 1], ops[|ops| - 1];
      Complete(u, front) && Migration.Activatable(op.pool)
      && Done(Served(After(u, front), op.kind, op.stream, op.pool, op.schedule).calls))
  }

  /** The last operation on a pool of a stream. */
  function LastOn(ops: seq<Operation>, stream: string, pool: Pool): Option<Kind> {
    if ops == [] then None
    else
      var op := ops[|ops| - 1];
      if op.stream == stream && op.pool == pool then Some(op.kind) else LastOn(ops[..|ops| - 1], stream, pool)
  }

  lemma {:induction false} HistoryKeepsUnique(u: Upstream, ops: seq<Operation>)
    requires u.Valid() && Unique(u.entries) && Complete(u, ops)
    ensures After(u, ops).Valid() && Unique(After(u, ops).entries)
  {
    if ops != [] {
      var front, op := ops[..|ops| - 1], ops[|ops| - 1];
      HistoryKeepsUnique(u, front);
      ServedKeepsUnique(After(u, front), op.kind, op.stream, op.pool, op.schedule);
      ServedCounts(After(u, front), op.kind, op.stream, op.pool, op.schedule, Key("", ""));
    }
  }

  /**
   * After any history of activations and deactivations, from an empty registry, a pool has each of its
   * subscriptions once if the last operation on it was its activation, and none of them otherwise.
   */
  lemma {:induction false} RegistryTellsLast(ops: seq<Operation>, stream: string, pool: Pool, key: Key)
    requires Complete(Upstream([], 0), ops) && Migration.Activatable(pool) && Owns(stream, pool, key)
    ensures Count(After(Upstream([], 0), ops).entries, key) == if LastOn(ops, stream, pool) == Some(GetOrCreate) then 1 else 0
  {
    if ops != [] {
      var front, op := ops[..|ops| - 1], ops[|ops| - 1];
      RegistryTellsLast(front, stream, pool, key);
      HistoryKeepsUnique(Upstream([], 0), front);
      ServedCounts(After(Upstream([], 0), front), op.kind, op.stream, op.pool, op.schedule, key);
      if Owns(op.stream, op.pool, key) {
        OnlyOneOwner(stream, pool, op.stream, op.pool, key);
      }
    }
  }
}
