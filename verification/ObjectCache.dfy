/** What the native object cache (native/src/media_object_manager.cpp) does, as functions on a
    flat map from (path, interface) to the cached properties and their revision.

    The class MediaObjectManager keeps the nested maps of the source and is proved to follow
    these functions; CacheConvergence and ObjectMirror reason about them. */
module ObjectCache {
  import opened Wrappers
  import opened WireCodec
  import opened Messages

  /** An interface name, told apart by the five names is_media_interface looks for. */
  datatype Interface = Player | Control | Transport | Folder | Item | Other(name: Text)

  predicate IsMedia(interface: Interface) {
    !interface.Other?
  }

  /** A D-Bus variant, by its marshalled bytes. */
  type Variant = seq<byte>
  type Props = map<Text, Variant>

  datatype Location = Location(path: Text, interface: Interface)
  datatype Entry = Entry(props: Props, revision: nat)

  /** An object of an ObjectManager reply or signal: its path and its interfaces with their
      properties, in the order the source's map enumerates them. */
  datatype Object = Object(path: Text, interfaces: seq<(Interface, Props)>)

  /** The three signals that update the cache. */
  datatype Update =
    | Added(object: Object)
    | Removed(path: Text, interfaces: seq<Interface>)
    | Changed(path: Text, interface: Interface, changed: Props, invalidated: seq<Text>)

  /** What is posted to the Dart port. */
  datatype Event =
    | Posted(location: Location, props: Props)
    | Dropped(location: Location)
    | SnapshotDone
    | ServiceLost
    | ServiceReady

  /** A GetAll call with the revision it was issued for. */
  datatype Query = Query(location: Location, revision: nat)

  datatype Native = Native(
    entries: map<Location, Entry>,
    nextRevision: nat,
    generation: nat,
    resynchronizing: bool,
    pending: seq<Update>,
    events: seq<Event>,
    queries: seq<Query>,
    /** Generations for which GetManagedObjects was called. */
    snapshotCalls: seq<nat>)

  const EMPTY := Native(map[], 0, 0, false, [], [], [], [])

  // ---------------------------------------------------------------- signals

  function AddOne(n: Native, location: Location, props: Props): Native {
    if !IsMedia(location.interface) then n
    else
      n.(entries := n.entries[location := Entry(props, n.nextRevision + 1)],
         nextRevision := n.nextRevision + 1,
         events := n.events + [Posted(location, props)])
  }

  function AddObject(n: Native, o: Object): Native
    decreases |o.interfaces|
  {
    if o.interfaces == [] then n
    else
      var last := |o.interfaces| - 1;
      AddOne(AddObject(n, o.(interfaces := o.interfaces[..last])),
             Location(o.path, o.interfaces[last].0), o.interfaces[last].1)
  }

  function AddObjects(n: Native, os: seq<Object>): Native {
    if os == [] then n
    else AddObject(AddObjects(n, os[..|os| - 1]), os[|os| - 1])
  }

  function RemoveOne(n: Native, location: Location): Native {
    if !IsMedia(location.interface) || location !in n.entries then n
    else n.(entries := n.entries - {location}, events := n.events + [Dropped(location)])
  }

  function RemoveInterfaces(n: Native, path: Text, interfaces: seq<Interface>): Native {
    if interfaces == [] then n
    else
      var last := |interfaces| - 1;
      RemoveOne(RemoveInterfaces(n, path, interfaces[..last]), Location(path, interfaces[last]))
  }

  function Change(n: Native, location: Location, changed: Props, invalidated: seq<Text>): Native {
    if location !in n.entries then n
    else
      var props := n.entries[location].props + changed;
      var revision := n.nextRevision + 1;
      n.(entries := n.entries[location := Entry(props, revision)],
         nextRevision := revision,
         events := n.events + (if changed == map[] then [] else [Posted(location, props)]),
         queries := n.queries + (if invalidated == [] then [] else [Query(location, revision)]))
  }

  function Apply(n: Native, u: Update): Native {
    match u
    case Added(o) => AddObject(n, o)
    case Removed(path, interfaces) => RemoveInterfaces(n, path, interfaces)
    case Changed(path, interface, changed, invalidated) =>
      Change(n, Location(path, interface), changed, invalidated)
  }

  function ApplyAll(n: Native, us: seq<Update>): Native {
    if us == [] then n
    else Apply(ApplyAll(n, us[..|us| - 1]), us[|us| - 1])
  }

  /** apply_update: signals that arrive while a snapshot is awaited are kept for later. */
  function Receive(n: Native, u: Update): Native {
    if n.resynchronizing then n.(pending := n.pending + [u]) else Apply(n, u)
  }

  // ---------------------------------------------------------------- replies

  /** The reply to a GetAll call; None is an error reply. */
  function Reply(n: Native, q: Query, reply: Option<Props>): Native {
    if reply.None? || q.location !in n.entries then n
    else if n.entries[q.location].revision != q.revision then
      n.(queries := n.queries + [Query(q.location, n.entries[q.location].revision)])
    else
      n.(entries := n.entries[q.location := Entry(reply.value, q.revision)],
         events := n.events + [Posted(q.location, reply.value)])
  }

  function Drops(order: seq<Location>): seq<Event> {
    seq(|order|, i requires 0 <= i < |order| => Dropped(order[i]))
  }

  /** The owner of org.bluez changed; `running` says whether there is a new one. `order` is the
      order in which the cached locations are dropped. */
  function OwnerChange(n: Native, running: bool, order: seq<Location>): Native {
    n.(entries := map[],
       generation := n.generation + 1,
       resynchronizing := running,
       pending := [],
       events := n.events + Drops(order) + [ServiceLost],
       snapshotCalls := n.snapshotCalls + if running then [n.generation + 1] else [])
  }

  /** The reply to the GetManagedObjects call issued at an owner change; None is an error reply. */
  function Snapshot(n: Native, generation: nat, objects: Option<seq<Object>>): Native {
    if generation != n.generation then n
    else if objects.None? then n.(resynchronizing := false, pending := [])
    else
      var added := AddObjects(n.(resynchronizing := false, pending := []), objects.value);
      var replayed := ApplyAll(added, n.pending);
      replayed.(events := replayed.events + [ServiceReady])
  }

  /** get_managed_objects, called once before the event loop starts. */
  function FirstSnapshot(n: Native, objects: seq<Object>): Native {
    var added := AddObjects(n, objects);
    added.(events := added.events + [SnapshotDone])
  }
}
