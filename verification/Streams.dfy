/** The event streams at the blockchain connector: createOrUpdateStream in src/event-stream/event-stream.service.ts. */
module Streams {
  import opened Wrappers

  datatype Stream = Stream(id: nat, name: string)

  /** No two streams share an id or a name. */
  ghost predicate AllApart(streams: seq<Stream>) {
    forall i, j :: 0 <= i < j < |streams| ==> streams[i].id != streams[j].id && streams[i].name != streams[j].name
  }

  /** The streams there are, and the id the next one gets. */
  datatype Registry = Registry(streams: seq<Stream>, nextId: nat) {
    ghost predicate Valid() {
      && (forall i :: 0 <= i < |streams| ==> streams[i].id < nextId)
      && AllApart(streams)
    }
  }

  function Named(streams: seq<Stream>, name: string): (r: Option<Stream>)
    ensures r.Some? ==> r.value in streams && r.value.name == name
    ensures r.None? ==> forall s :: s in streams ==> s.name != name
  {
    if streams == [] then None
    else if streams[0].name == name then Some(streams[0])
    else Named(streams[1..], name)
  }

  function Delete(streams: seq<Stream>, id: nat): (r: seq<Stream>)
    ensures forall s :: s in streams && s.id != id ==> s in r
    ensures forall s :: s in r ==> s in streams
  {
    if streams == [] then []
    else if streams[0].id == id then streams[1..]
    else [streams[0]] + Delete(streams[1..], id)
  }

  lemma ApartFrom(first: Stream, rest: seq<Stream>)
    ensures AllApart([first] + rest) <==> AllApart(rest) && forall s :: s in rest ==> s.id != first.id && s.name != first.name
  {
    var all := [first] + rest;
    assert all[1..] == rest;
    if AllApart(all) {
      forall s | s in rest ensures s.id != first.id && s.name != first.name {
        var i :| 0 <= i < |rest| && rest[i] == s;
        assert all[0] == first && all[i + 1] == s;
      }
      forall i, j | 0 <= i < j < |rest| ensures rest[i].id != rest[j].id && rest[i].name != rest[j].name {
        assert all[i + 1] == rest[i] && all[j + 1] == rest[j];
      }
    }
  }

  lemma {:induction false} DeleteKeepsApart(streams: seq<Stream>, id: nat)
    requires AllApart(streams)
    ensures AllApart(Delete(streams, id))
    ensures forall s :: s in Delete(streams, id) ==> s.id != id
  {
    if streams != [] {
      assert streams == [streams[0]] + streams[1..];
      ApartFrom(streams[0], streams[1..]);
      hide AllApart;
      DeleteKeepsApart(streams[1..], id);
      ApartFrom(streams[0], Delete(streams[1..], id));
    }
  }

  lemma SameNameSameStream(r: Registry, s: Stream, t: Stream)
    requires r.Valid() && s in r.streams && t in r.streams && s.name == t.name
    ensures s == t
  {
  }

  /** The streams once the one of the old name is purged. */
  function Purge(r: Registry, topic: string): Registry {
    var deprecated := Named(r.streams, topic);
    if deprecated.None? then r else r.(streams := Delete(r.streams, deprecated.value.id))
  }

  lemma PurgeRemovesOne(r: Registry, topic: string)
    requires r.Valid()
    ensures Purge(r, topic).Valid()
    ensures forall s :: s in Purge(r, topic).streams <==> s in r.streams && s.name != topic
  {
    var deprecated := Named(r.streams, topic);
    if deprecated.Some? {
      var left := Delete(r.streams, deprecated.value.id);
      DeleteKeepsApart(r.streams, deprecated.value.id);
      assert forall i :: 0 <= i < |left| ==> left[i] in left;
      forall s | s in r.streams && s.name == topic ensures s == deprecated.value {
        SameNameSameStream(r, s, deprecated.value);
      }
    }
  }

  lemma AddKeepsValid(r: Registry, name: string)
    requires r.Valid() && forall s :: s in r.streams ==> s.name != name
    ensures Registry(r.streams + [Stream(r.nextId, name)], r.nextId + 1).Valid()
  {
    assert forall i :: 0 <= i < |r.streams| ==> r.streams[i] in r.streams;
  }

  function CreateOrUpdate(r: Registry, name: string, topic: string): (Registry, Stream) {
    var existing, purged := Named(r.streams, name), Purge(r, topic);
    if existing.Some? then (purged, existing.value)
    else
      var stream := Stream(purged.nextId, name);
      (Registry(purged.streams + [stream], purged.nextId + 1), stream)
  }

  /**
   * The stream of the old name is gone, there is one stream of the new name, with the id it had if it was
   * there before, and every other stream stays. The old and the new name differ, as the new one ends in a
   * namespace.
   */
  lemma OneStreamForName(r: Registry, name: string, topic: string)
    requires r.Valid() && name != topic
    ensures var (r', stream) := CreateOrUpdate(r, name, topic);
            && r'.Valid()
            && (forall s :: s in r'.streams <==> s == stream || (s in r.streams && s.name != topic))
            && stream.name == name
            && (forall s :: s in r.streams && s.name == name ==> s == stream)
  {
    PurgeRemovesOne(r, topic);
    var purged := Purge(r, topic);
    hide Purge;
    if Named(r.streams, name).None? {
      AddKeepsValid(purged, name);
      hide Registry.Valid;
    } else {
      forall s | s in r.streams && s.name == name ensures s == Named(r.streams, name).value {
        SameNameSameStream(r, s, Named(r.streams, name).value);
      }
    }
  }

  /** Doing it again changes nothing and gives the same stream. */
  lemma AgainIsTheSame(r: Registry, name: string, topic: string)
    requires r.Valid() && name != topic
    ensures var (r', stream) := CreateOrUpdate(r, name, topic); CreateOrUpdate(r', name, topic) == (r', stream)
  {
    OneStreamForName(r, name, topic);
    var (r', stream) := CreateOrUpdate(r, name, topic);
    hide CreateOrUpdate;
    assert Named(r'.streams, topic).None?;
    assert Named(r'.streams, name).Some?;
    SameNameSameStream(r', stream, Named(r'.streams, name).value);
    Repeats(r', name, topic);
  }

  lemma Repeats(r: Registry, name: string, topic: string)
    requires Named(r.streams, topic).None? && Named(r.streams, name).Some?
    ensures CreateOrUpdate(r, name, topic) == (r, Named(r.streams, name).value)
  {
  }

  class StreamService {
    var registry: Registry

    constructor (registry: Registry)
      ensures this.registry == registry
    {
      this.registry := registry;
    }

    method CreateOrUpdateStream(name: string, topic: string) returns (stream: Stream)
      modifies this
      ensures (registry, stream) == CreateOrUpdate(old(registry), name, topic)
    {
      var existingStreams := registry.streams;
      var deprecated := Named(existingStreams, topic);
      if deprecated.Some? {
        registry := registry.(streams := Delete(registry.streams, deprecated.value.id));
      }
      var existing := Named(existingStreams, name);
      if existing.Some? {
        return existing.value;
      }
      stream := Stream(registry.nextId, name);
      registry := Registry(registry.streams + [stream], registry.nextId + 1);
    }
  }
}
