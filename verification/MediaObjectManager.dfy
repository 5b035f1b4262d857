/** MediaObjectManager as the source keeps it (native/include/media_object_manager.h): three
    nested maps updated handler by handler. Every handler is proved against the function of
    ObjectCache it performs, on the flat map the nested ones stand for. */
module MediaObjectManagers {
  import opened Wrappers
  import opened Orders
  import opened Messages
  import opened ObjectCache

  /** The three maps together. */
  datatype Nested = Nested(
    interfaces: map<Text, set<Interface>>,
    properties: map<Text, map<Interface, Props>>,
    revisions: map<Text, map<Interface, nat>>)
  {
    ghost predicate SamePath(p: Text) {
      (p in interfaces <==> p in properties) && (p in interfaces <==> p in revisions)
    }

    ghost predicate SameEntry(l: Location, es: map<Location, Entry>) {
      && (l in es <==> l.path in interfaces && l.interface in interfaces[l.path])
      && (l in es <==> l.path in properties && l.interface in properties[l.path])
      && (l in es <==> l.path in revisions && l.interface in revisions[l.path])
      && (l in es ==>
            && es[l] == Entry(properties[l.path][l.interface], revisions[l.path][l.interface])
            && IsMedia(l.interface))
    }

    /** The maps have one domain, hold only media interfaces, and together say what `es` says. */
    ghost predicate Represents(es: map<Location, Entry>) {
      (forall p :: SamePath(p)) && (forall l :: SameEntry(l, es))
    }

    /** No path is kept without interfaces. */
    ghost predicate NoEmptySets() {
      forall p | p in interfaces :: interfaces[p] != {}
    }

    ghost function Put(l: Location, props: Props, revision: nat): Nested {
      var knownInterfaces := if l.path in interfaces then interfaces[l.path] else {};
      var knownProperties := if l.path in properties then properties[l.path] else map[];
      var knownRevisions: map<Interface, nat> := if l.path in revisions then revisions[l.path] else map[];
      Nested(interfaces[l.path := knownInterfaces + {l.interface}],
             properties[l.path := knownProperties[l.interface := props]],
             revisions[l.path := knownRevisions[l.interface := revision]])
    }

    lemma PutPuts(l: Location, props: Props, revision: nat, es: map<Location, Entry>)
      requires Represents(es) && IsMedia(l.interface)
      ensures Put(l, props, revision).Represents(es[l := Entry(props, revision)])
    {
      var after := Put(l, props, revision);
      assert SamePath(l.path);
      var es' := es[l := Entry(props, revision)];
      forall p ensures after.SamePath(p) { assert SamePath(p); }
      forall k ensures after.SameEntry(k, es') { assert SameEntry(k, es); }
    }

    /** Put on a location already known leaves the interface sets alone. */
    lemma PutOverwrites(l: Location, props: Props, revision: nat, es: map<Location, Entry>)
      requires Represents(es) && l in es
      ensures SamePath(l.path) && SameEntry(l, es)
      ensures Nested(interfaces,
                     properties[l.path := properties[l.path][l.interface := props]],
                     PutRevision(l, revision)).Represents(es[l := Entry(props, revision)])
    {
      assert SamePath(l.path) && SameEntry(l, es);
      PutPuts(l, props, revision, es);
      assert interfaces[l.path := interfaces[l.path] + {l.interface}] == interfaces by {
        assert interfaces[l.path] + {l.interface} == interfaces[l.path];
      }
    }

    ghost function PutRevision(l: Location, revision: nat): map<Text, map<Interface, nat>>
      requires l.path in revisions
    {
      var known: map<Interface, nat> := revisions[l.path];
      revisions[l.path := known[l.interface := revision]]
    }

    ghost function Erase(l: Location): Nested
      requires l.path in interfaces && l.path in properties && l.path in revisions
    {
      Nested(interfaces[l.path := interfaces[l.path] - {l.interface}],
             properties[l.path := properties[l.path] - {l.interface}],
             revisions[l.path := revisions[l.path] - {l.interface}])
    }

    lemma EraseErases(l: Location, es: map<Location, Entry>)
      requires Represents(es) && l.path in interfaces
      ensures SamePath(l.path)
      ensures Erase(l).Represents(es - {l})
    {
      assert SamePath(l.path);
      var after := Erase(l);
      forall p ensures after.SamePath(p) { assert SamePath(p); }
      var es' := es - {l};
      forall k ensures after.SameEntry(k, es') { assert SameEntry(k, es); }
    }

    /** What is known under a path is its interface set. */
    lemma PathEntries(path: Text, es: map<Location, Entry>)
      requires Represents(es) && path in interfaces
      ensures forall i | i in interfaces[path] :: Location(path, i) in es && IsMedia(i)
      ensures forall l | l in es && l.path == path :: l.interface in interfaces[path]
    {
      forall i | i in interfaces[path]
        ensures Location(path, i) in es && IsMedia(i)
      {
        assert SameEntry(Location(path, i), es);
      }
      forall l | l in es && l.path == path
        ensures l.interface in interfaces[path]
      {
        assert SameEntry(l, es);
      }
    }

    /** Without entries there are no paths. */
    lemma PathsHaveEntries(es: map<Location, Entry>)
      requires Represents(es) && NoEmptySets()
      ensures es == map[] <==> interfaces == map[]
      ensures es == map[] ==> properties == map[] && revisions == map[]
    {
      forall p | p in interfaces
        ensures es != map[]
      {
        var i :| i in interfaces[p];
        assert SameEntry(Location(p, i), es);
      }
      forall l | l in es
        ensures l.path in interfaces
      {
        assert SameEntry(l, es);
      }
      assert forall p :: SamePath(p);
      if interfaces == map[] {
        forall p ensures p !in properties && p !in revisions { assert SamePath(p); }
      }
    }

    lemma ForgetEmpty(path: Text, es: map<Location, Entry>)
      requires Represents(es) && path in interfaces && interfaces[path] == {}
      ensures Nested(interfaces - {path}, properties - {path}, revisions - {path}).Represents(es)
    {
      var after := Nested(interfaces - {path}, properties - {path}, revisions - {path});
      forall p ensures after.SamePath(p) { assert SamePath(p); }
      forall k ensures after.SameEntry(k, es) { assert SameEntry(k, es); }
    }
  }

  class MediaObjectManager {
    var interfacesByPath: map<Text, set<Interface>>
    var propertiesByPath: map<Text, map<Interface, Props>>
    var revisions: map<Text, map<Interface, nat>>
    var nextRevision: nat
    var ownerGeneration: nat
    var resynchronizing: bool
    var pendingUpdates: seq<Update>
    /** Posted to the Dart port, in order. */
    var events: seq<Event>
    /** GetAll calls sent to the service, in order. */
    var queries: seq<Query>
    /** GetManagedObjects calls sent after owner changes, by generation. */
    var snapshotCalls: seq<nat>

    /** The flat map the nested ones stand for. */
    ghost var entries: map<Location, Entry>

    constructor ()
      ensures Valid() && Abs() == EMPTY
    {
      interfacesByPath := map[];
      propertiesByPath := map[];
      revisions := map[];
      nextRevision := 0;
      ownerGeneration := 0;
      resynchronizing := false;
      pendingUpdates := [];
      events := [];
      queries := [];
      snapshotCalls := [];
      entries := map[];
    }

    ghost function Maps(): Nested
      reads this
    {
      Nested(interfacesByPath, propertiesByPath, revisions)
    }

    ghost predicate Valid()
      reads this
    {
      Maps().Represents(entries) && Maps().NoEmptySets()
    }

    ghost function Abs(): Native
      reads this
    {
      Native(entries, nextRevision, ownerGeneration, resynchronizing, pendingUpdates, events, queries, snapshotCalls)
    }

    // -------------------------------------------------------------- posting

    /** The two lookups before posting both succeed exactly for a known interface. */
    method PostProperties(path: Text, interface: Interface)
      requires Maps().Represents(entries)
      modifies this`events
      ensures var l := Location(path, interface);
        events == old(events) + if l in entries then [Posted(l, entries[l].props)] else []
    {
      assert Maps().SameEntry(Location(path, interface), entries);
      if path !in propertiesByPath { return; }
      if interface !in propertiesByPath[path] { return; }
      events := events + [Posted(Location(path, interface), propertiesByPath[path][interface])];
    }

    method PostRemoved(path: Text, interface: Interface)
      modifies this`events
      ensures events == old(events) + [Dropped(Location(path, interface))]
    {
      events := events + [Dropped(Location(path, interface))];
    }

    method RefreshProperties(path: Text, interface: Interface, revision: nat)
      modifies this`queries
      ensures queries == old(queries) + [Query(Location(path, interface), revision)]
    {
      queries := queries + [Query(Location(path, interface), revision)];
    }

    // -------------------------------------------------------------- InterfacesAdded

    /** The three insertions of on_interfaces_added. */
    method Store(path: Text, interface: Interface, props: Props, revision: nat)
      requires Maps().Represents(entries) && IsMedia(interface)
      modifies this`interfacesByPath, this`revisions, this`propertiesByPath, this`entries
      ensures Maps() == old(Maps()).Put(Location(path, interface), props, revision)
      ensures entries == old(entries)[Location(path, interface) := Entry(props, revision)]
      ensures Maps().Represents(entries)
    {
      Maps().PutPuts(Location(path, interface), props, revision, entries);
      var knownInterfaces := if path in interfacesByPath then interfacesByPath[path] else {};
      interfacesByPath := interfacesByPath[path := knownInterfaces + {interface}];
      var knownRevisions: map<Interface, nat> := if path in revisions then revisions[path] else map[];
      revisions := revisions[path := knownRevisions[interface := revision]];
      var knownProperties := if path in propertiesByPath then propertiesByPath[path] else map[];
      propertiesByPath := propertiesByPath[path := knownProperties[interface := props]];
      entries := entries[Location(path, interface) := Entry(props, revision)];
    }

    method AddInterface(path: Text, interface: Interface, props: Props)
      requires Valid()
      modifies this
      ensures Valid() && Abs() == AddOne(old(Abs()), Location(path, interface), props)
    {
      if !IsMedia(interface) { return; }
      nextRevision := nextRevision + 1;
      Store(path, interface, props, nextRevision);
      PostProperties(path, interface);
    }

    method OnInterfacesAdded(o: Object)
      requires Valid()
      modifies this
      ensures Valid() && Abs() == AddObject(old(Abs()), o)
    {
      for k := 0 to |o.interfaces|
        invariant Valid()
        invariant Abs() == AddObject(old(Abs()), o.(interfaces := o.interfaces[..k]))
      {
        assert o.interfaces[..k + 1][..k] == o.interfaces[..k];
        AddInterface(o.path, o.interfaces[k].0, o.interfaces[k].1);
      }
      assert o.interfaces[..|o.interfaces|] == o.interfaces;
    }

    // -------------------------------------------------------------- InterfacesRemoved

    /** One round of the removal loop; it may leave `path` with no interface. */
    method EraseInterface(path: Text, interface: Interface)
      requires Maps().Represents(entries) && path in interfacesByPath
      modifies this
      ensures Maps().Represents(entries) && interfacesByPath.Keys == old(interfacesByPath.Keys)
      ensures forall p | p in interfacesByPath && p != path :: interfacesByPath[p] == old(interfacesByPath[p])
      ensures Abs() == RemoveOne(old(Abs()), Location(path, interface))
    {
      assert Maps().SameEntry(Location(path, interface), entries);
      if !IsMedia(interface) || interface !in interfacesByPath[path] { return; }
      Maps().EraseErases(Location(path, interface), entries);
      interfacesByPath := interfacesByPath[path := interfacesByPath[path] - {interface}];
      revisions := revisions[path := revisions[path] - {interface}];
      PostRemoved(path, interface);
      propertiesByPath := propertiesByPath[path := propertiesByPath[path] - {interface}];
      entries := entries - {Location(path, interface)};
    }

    method EraseInterfaces(path: Text, interfaces: seq<Interface>)
      requires Valid() && path in interfacesByPath
      modifies this
      ensures Maps().Represents(entries) && path in interfacesByPath
      ensures forall p | p in interfacesByPath && p != path :: interfacesByPath[p] != {}
      ensures Abs() == RemoveInterfaces(old(Abs()), path, interfaces)
    {
      for k := 0 to |interfaces|
        invariant Maps().Represents(entries) && path in interfacesByPath
        invariant forall p | p in interfacesByPath && p != path :: interfacesByPath[p] != {}
        invariant Abs() == RemoveInterfaces(old(Abs()), path, interfaces[..k])
      {
        assert interfaces[..k + 1][..k] == interfaces[..k];
        EraseInterface(path, interfaces[k]);
      }
      assert interfaces[..|interfaces|] == interfaces;
    }

    method OnInterfacesRemoved(path: Text, interfaces: seq<Interface>)
      requires Valid()
      modifies this
      ensures Valid() && Abs() == RemoveInterfaces(old(Abs()), path, interfaces)
    {
      if path !in interfacesByPath {
        assert forall l | l in entries :: Maps().SameEntry(l, entries);
        RemovingUnknownPath(Abs(), path, interfaces);
        return;
      }
      EraseInterfaces(path, interfaces);
      if interfacesByPath[path] == {} {
        Maps().ForgetEmpty(path, entries);
        interfacesByPath := interfacesByPath - {path};
        revisions := revisions - {path};
        propertiesByPath := propertiesByPath - {path};
      }
    }

    // -------------------------------------------------------------- PropertiesChanged

    method MergeProperties(into: Props, changed: Props) returns (merged: Props)
      ensures merged == into + changed
    {
      merged := into;
      var left := changed.Keys;
      while left != {}
        invariant left <= changed.Keys
        invariant merged == into + map k | k in changed && k !in left :: changed[k]
      {
        var name :| name in left;
        merged := merged[name := changed[name]];
        left := left - {name};
      }
    }

    method OnPropertiesChanged(path: Text, interface: Interface, changed: Props, invalidated: seq<Text>)
      requires Valid()
      modifies this
      ensures Valid() && Abs() == Change(old(Abs()), Location(path, interface), changed, invalidated)
    {
      assert Maps().SameEntry(Location(path, interface), entries);
      if path !in interfacesByPath || interface !in interfacesByPath[path] { return; }
      nextRevision := nextRevision + 1;
      MergeAt(path, interface, changed, nextRevision);
      if changed != map[] { PostProperties(path, interface); }
      if invalidated != [] { RefreshProperties(path, interface, nextRevision); }
    }

    /** The changed properties and the new revision, for a known interface. */
    method MergeAt(path: Text, interface: Interface, changed: Props, revision: nat)
      requires Maps().Represents(entries) && Location(path, interface) in entries
      modifies this`revisions, this`propertiesByPath, this`entries
      ensures var l := Location(path, interface);
        entries == old(entries)[l := Entry(old(entries)[l].props + changed, revision)]
      ensures Maps().Represents(entries)
    {
      assert Maps().SameEntry(Location(path, interface), entries);
      var merged := MergeProperties(propertiesByPath[path][interface], changed);
      Maps().PutOverwrites(Location(path, interface), merged, revision, entries);
      propertiesByPath := propertiesByPath[path := propertiesByPath[path][interface := merged]];
      var known: map<Interface, nat> := revisions[path];
      revisions := revisions[path := known[interface := revision]];
      entries := entries[Location(path, interface) := Entry(merged, revision)];
    }

    // -------------------------------------------------------------- apply_update

    method Run(u: Update)
      requires Valid()
      modifies this
      ensures Valid() && Abs() == Apply(old(Abs()), u)
    {
      match u
      case Added(o) => OnInterfacesAdded(o);
      case Removed(path, interfaces) => OnInterfacesRemoved(path, interfaces);
      case Changed(path, interface, changed, invalidated) =>
        OnPropertiesChanged(path, interface, changed, invalidated);
    }

    method ApplyUpdate(u: Update)
      requires Valid()
      modifies this
      ensures Valid() && Abs() == Receive(old(Abs()), u)
    {
      if resynchronizing {
        pendingUpdates := pendingUpdates + [u];
      } else {
        Run(u);
      }
    }

    // -------------------------------------------------------------- replies

    method OnGetAllReply(q: Query, reply: Option<Props>)
      requires Valid()
      modifies this
      ensures Valid() && Abs() == Reply(old(Abs()), q, reply)
    {
      var path, interface := q.location.path, q.location.interface;
      assert Maps().SameEntry(q.location, entries);
      if reply.None? || path !in revisions { return; }
      if interface !in revisions[path] { return; }
      if revisions[path][interface] != q.revision {
        RefreshProperties(path, interface, revisions[path][interface]);
        return;
      }
      Maps().PutOverwrites(q.location, reply.value, q.revision, entries);
      assert revisions == Maps().PutRevision(q.location, q.revision) by {
        assert revisions[path][interface := q.revision] == revisions[path];
      }
      propertiesByPath := propertiesByPath[path := propertiesByPath[path][interface := reply.value]];
      entries := entries[q.location := Entry(reply.value, q.revision)];
      PostProperties(path, interface);
    }

    /** One round of the owner-change loop: a path with everything under it. */
    method DropPath(path: Text) returns (ghost dropped: seq<Location>)
      requires Valid() && path in interfacesByPath
      modifies this
      ensures Valid() && entries.Keys < old(entries).Keys
      ensures Enumerates(dropped, old(entries).Keys - entries.Keys)
      ensures Abs() == old(Abs()).(entries := entries, events := old(events) + Drops(dropped))
    {
      var interfaces := SetToSeq(interfacesByPath[path]);
      dropped := LocationsAt(path, interfaces);
      Maps().PathEntries(path, entries);
      RemovingEach(Abs(), path, interfaces);
      DroppedLocations(path, interfaces, entries);
      OnInterfacesRemoved(path, interfaces);
    }

    /** The owner-change loop. */
    method DropAll() returns (ghost order: seq<Location>)
      requires Valid()
      modifies this
      ensures Valid() && Maps() == Nested(map[], map[], map[])
      ensures Enumerates(order, old(entries).Keys)
      ensures Abs() == old(Abs()).(entries := map[], events := old(events) + Drops(order))
    {
      order := [];
      while interfacesByPath != map[]
        invariant Valid() && entries.Keys <= old(entries).Keys
        invariant Enumerates(order, old(entries).Keys - entries.Keys)
        invariant Abs() == old(Abs()).(entries := entries, events := old(events) + Drops(order))
        decreases entries.Keys
      {
        var path :| path in interfacesByPath;
        ghost var known := entries.Keys;
        ghost var dropped := DropPath(path);
        EnumeratesMore(order, old(entries).Keys - known, dropped, known - entries.Keys);
        assert old(entries).Keys - known + (known - entries.Keys) == old(entries).Keys - entries.Keys;
        assert Drops(order + dropped) == Drops(order) + Drops(dropped);
        order := order + dropped;
      }
      Maps().PathsHaveEntries(entries);
      assert old(entries).Keys - entries.Keys == old(entries).Keys;
    }

    /** A new owner, or none: everything known is dropped, path by path. */
    method OnOwnerChanged(running: bool) returns (ghost order: seq<Location>)
      requires Valid()
      modifies this
      ensures Valid() && Maps() == Nested(map[], map[], map[])
      ensures Enumerates(order, old(entries).Keys)
      ensures Abs() == OwnerChange(old(Abs()), running, order)
    {
      ownerGeneration := ownerGeneration + 1;
      pendingUpdates := [];
      resynchronizing := running;
      order := DropAll();
      events := events + [ServiceLost];
      if running { snapshotCalls := snapshotCalls + [ownerGeneration]; }
    }

    method GetManagedObjects(objects: seq<Object>)
      requires Valid()
      modifies this
      ensures Valid() && Abs() == FirstSnapshot(old(Abs()), objects)
    {
      AddEach(objects);
      events := events + [SnapshotDone];
    }

    method AddEach(objects: seq<Object>)
      requires Valid()
      modifies this
      ensures Valid() && Abs() == AddObjects(old(Abs()), objects)
    {
      for k := 0 to |objects|
        invariant Valid() && Abs() == AddObjects(old(Abs()), objects[..k])
      {
        assert objects[..k + 1][..k] == objects[..k];
        OnInterfacesAdded(objects[k]);
      }
      assert objects[..|objects|] == objects;
    }

    method OnSnapshot(generation: nat, objects: Option<seq<Object>>)
      requires Valid()
      modifies this
      ensures Valid() && Abs() == Snapshot(old(Abs()), generation, objects)
    {
      if generation != ownerGeneration { return; }
      resynchronizing := false;
      var updates := pendingUpdates;
      pendingUpdates := [];
      if objects.None? { return; }
      AddEach(objects.value);
      ghost var added := Abs();
      for k := 0 to |updates|
        invariant Valid() && Abs() == ApplyAll(added, updates[..k])
      {
        assert updates[..k + 1][..k] == updates[..k];
        Run(updates[k]);
      }
      assert updates[..|updates|] == updates;
      events := events + [ServiceReady];
    }
  }

  ghost function LocationsAt(path: Text, interfaces: seq<Interface>): seq<Location> {
    seq(|interfaces|, i requires 0 <= i < |interfaces| => Location(path, interfaces[i]))
  }

  /** Each distinct known interface of a path is dropped once. */
  lemma {:induction false} RemovingEach(n: Native, path: Text, interfaces: seq<Interface>)
    requires forall i, j | 0 <= i < j < |interfaces| :: interfaces[i] != interfaces[j]
    requires forall i | i in interfaces :: Location(path, i) in n.entries && IsMedia(i)
    ensures RemoveInterfaces(n, path, interfaces) ==
      n.(entries := n.entries - (set l | l in LocationsAt(path, interfaces)),
         events := n.events + Drops(LocationsAt(path, interfaces)))
  {
    if interfaces == [] {
      assert n.entries - (set l | l in LocationsAt(path, interfaces)) == n.entries;
      assert n.events + Drops(LocationsAt(path, interfaces)) == n.events;
    } else {
      var last := |interfaces| - 1;
      var front := interfaces[..last];
      RemovingEach(n, path, front);
      var l := Location(path, interfaces[last]);
      LocationsSnoc(path, interfaces);
      var gone := set k | k in LocationsAt(path, front);
      assert l !in gone;
      assert n.entries - gone - {l} == n.entries - (gone + {l});
      assert n.events + Drops(LocationsAt(path, front)) + [Dropped(l)]
          == n.events + (Drops(LocationsAt(path, front)) + [Dropped(l)]);
    }
  }

  lemma LocationsSnoc(path: Text, interfaces: seq<Interface>)
    requires interfaces != []
    ensures var last := |interfaces| - 1;
      var l, front := Location(path, interfaces[last]), LocationsAt(path, interfaces[..last]);
      && LocationsAt(path, interfaces) == front + [l]
      && Drops(LocationsAt(path, interfaces)) == Drops(front) + [Dropped(l)]
      && (set k | k in LocationsAt(path, interfaces)) == (set k | k in front) + {l}
  {
    var last := |interfaces| - 1;
    assert LocationsAt(path, interfaces) == LocationsAt(path, interfaces[..last]) + [Location(path, interfaces[last])];
  }

  lemma DroppedLocations(path: Text, interfaces: seq<Interface>, es: map<Location, Entry>)
    requires forall i, j | 0 <= i < j < |interfaces| :: interfaces[i] != interfaces[j]
    requires interfaces != [] && forall i | i in interfaces :: Location(path, i) in es
    ensures var left := es - set l | l in LocationsAt(path, interfaces);
      Enumerates(LocationsAt(path, interfaces), es.Keys - left.Keys) && left.Keys < es.Keys
  {
    var dropped := LocationsAt(path, interfaces);
    var left := es - set l | l in dropped;
    assert dropped[0] in es && dropped[0] !in left;
  }

  lemma {:induction false} RemovingUnknownPath(n: Native, path: Text, interfaces: seq<Interface>)
    requires forall l | l in n.entries :: l.path != path
    ensures RemoveInterfaces(n, path, interfaces) == n
  {
    if interfaces != [] {
      RemovingUnknownPath(n, path, interfaces[..|interfaces| - 1]);
    }
  }
}
