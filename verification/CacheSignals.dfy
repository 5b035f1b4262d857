/** What each signal, reply and owner change does to the native cache, said of its contents and of what
    is posted and asked, without the functions that do it. */
module CacheSignals {
  import opened Wrappers
  import opened Orders
  import opened Messages
  import opened ObjectCache
  import opened CacheConvergence

  ghost predicate SameAt(n: Native, n': Native, l: Location) {
    (l in n'.entries <==> l in n.entries) && (l in n.entries ==> n'.entries[l] == n.entries[l])
  }

  // ---------------------------------------------------------------- InterfacesAdded

  /** Entry `k` is the last of the object for its interface. */
  predicate LastListed(o: Object, k: nat) {
    k < |o.interfaces| && forall j | k < j < |o.interfaces| :: o.interfaces[j].0 != o.interfaces[k].0
  }

  predicate ListsInterface(o: Object, l: Location) {
    o.path == l.path && exists k :: 0 <= k < |o.interfaces| && o.interfaces[k].0 == l.interface
  }

  lemma {:induction false} LastForListed(interfaces: seq<(Interface, Props)>, k: nat)
    requires k < |interfaces| && forall j | k < j < |interfaces| :: interfaces[j].0 != interfaces[k].0
    ensures LastFor(interfaces, interfaces[k].0) == Some(interfaces[k].1)
  {
    if k < |interfaces| - 1 { LastForListed(interfaces[..|interfaces| - 1], k); }
  }

  lemma {:induction false} LastForUnlisted(interfaces: seq<(Interface, Props)>, i: Interface)
    requires forall k | 0 <= k < |interfaces| :: interfaces[k].0 != i
    ensures LastFor(interfaces, i) == None
  {
    if interfaces != [] { LastForUnlisted(interfaces[..|interfaces| - 1], i); }
  }

  /** After an object is added each of its media interfaces has the properties listed last for it, under
      a revision newer than any before; nothing else has changed and nothing is asked. */
  lemma AddedSignal(n: Native, o: Object, l: Location)
    requires NativeOk(n) && IsMedia(l.interface)
    ensures var n' := Apply(n, Added(o));
      && (forall k: nat | LastListed(o, k) && Location(o.path, o.interfaces[k].0) == l ::
            && l in n'.entries && n'.entries[l].props == o.interfaces[k].1
            && n'.entries[l].revision > n.nextRevision)
      && (!ListsInterface(o, l) ==> SameAt(n, n', l))
      && n'.queries == n.queries && |n'.events| == |n.events| + MediaCount(o.interfaces)
  {
    AddObjectAt(n, o, l);
    AddedPosts(n, o);
    forall k: nat | LastListed(o, k) && Location(o.path, o.interfaces[k].0) == l
      ensures AddedAt(o, l) == Some(o.interfaces[k].1)
    {
      LastForListed(o.interfaces, k);
    }
    if !ListsInterface(o, l) && o.path == l.path { LastForUnlisted(o.interfaces, l.interface); }
  }

  function MediaCount(interfaces: seq<(Interface, Props)>): nat {
    if interfaces == [] then 0
    else
      var last := |interfaces| - 1;
      MediaCount(interfaces[..last]) + if IsMedia(interfaces[last].0) then 1 else 0
  }

  lemma {:induction false} AddedPosts(n: Native, o: Object)
    ensures |AddObject(n, o).events| == |n.events| + MediaCount(o.interfaces)
    decreases |o.interfaces|
  {
    if o.interfaces != [] { AddedPosts(n, o.(interfaces := o.interfaces[..|o.interfaces| - 1])); }
  }

  // ---------------------------------------------------------------- InterfacesRemoved

  /** After a removal the named media interfaces are gone from the path and nothing else has changed;
      one event is posted for each that was known. */
  lemma {:induction false} RemovedSignal(n: Native, path: Text, interfaces: seq<Interface>, l: Location)
    requires NativeOk(n) && IsMedia(l.interface)
    ensures var n' := Apply(n, Removed(path, interfaces));
      && (if l.path == path && l.interface in interfaces then l !in n'.entries else SameAt(n, n', l))
      && n'.queries == n.queries && |n'.events| == |n.events| + (|n.entries| - |n'.entries|)
  {
    RemoveInterfacesAt(n, path, interfaces, l);
    RemovedPosts(n, path, interfaces);
  }

  lemma {:induction false} RemovedPosts(n: Native, path: Text, interfaces: seq<Interface>)
    ensures var n' := RemoveInterfaces(n, path, interfaces);
      |n'.events| == |n.events| + (|n.entries| - |n'.entries|)
  {
    if interfaces != [] {
      var last := |interfaces| - 1;
      var front, l := RemoveInterfaces(n, path, interfaces[..last]), Location(path, interfaces[last]);
      RemovedPosts(n, path, interfaces[..last]);
      if l in front.entries {
        assert front.entries.Keys == (front.entries - {l}).Keys + {l};
        assert |front.entries.Keys| == |front.entries| && |(front.entries - {l}).Keys| == |front.entries - {l}|;
      }
    }
  }

  // ---------------------------------------------------------------- PropertiesChanged

  /** After a change of a known location each changed key has its new value and every other key its old
      one. The location is posted if and only if some key was changed, and asked for, at its new
      revision, if and only if some key was invalidated. Nothing else has changed; and nothing at all if
      the location is unknown. */
  lemma ChangedSignal(n: Native, path: Text, interface: Interface, changed: Props, invalidated: seq<Text>)
    requires NativeOk(n)
    ensures var l, n' := Location(path, interface), Apply(n, Changed(path, interface, changed, invalidated));
      if l !in n.entries then n' == n
      else
        && (forall k :: Get(Cell(n', l), k) == if k in changed then Some(changed[k]) else Get(Cell(n, l), k))
        && l in n'.entries && n'.entries[l].revision > n.entries[l].revision
        && (forall k | k != l :: SameAt(n, n', k))
        && n'.events == n.events + (if |changed| == 0 then [] else [Posted(l, n'.entries[l].props)])
        && n'.queries == n.queries + if |invalidated| == 0 then [] else [Query(l, n'.entries[l].revision)]
  {
    var l, n' := Location(path, interface), Apply(n, Changed(path, interface, changed, invalidated));
    if l in n.entries {
      assert n'.entries == n.entries[l := n'.entries[l]];
      assert n'.entries[l].props == n.entries[l].props + changed;
      ChangedKeys(n.entries[l].props, changed);
    }
  }

  lemma ChangedKeys(props: Props, changed: Props)
    ensures forall k :: Get(Some(props + changed), k) == if k in changed then Some(changed[k]) else Get(Some(props), k)
  {
  }

  // ---------------------------------------------------------------- replies

  /** A reply replaces the properties, and posts them, if and only if it carries the revision the
      location has. At another revision the location is asked for again, at that revision; a failure,
      or an unknown location, changes nothing. */
  lemma ReplyTaken(n: Native, q: Query, reply: Option<Props>)
    ensures var n' := Reply(n, q, reply);
      && (n' == n <==> reply.None? || q.location !in n.entries)
      && (forall k | k != q.location :: SameAt(n, n', k))
      && (n' != n ==>
            var revision := n.entries[q.location].revision;
            && q.location in n'.entries && n'.entries[q.location].revision == revision
            && (if revision == q.revision then
                  n'.entries[q.location].props == reply.value && n'.queries == n.queries
                  && n'.events == n.events + [Posted(q.location, reply.value)]
                else
                  n'.entries == n.entries && n'.events == n.events
                  && n'.queries == n.queries + [Query(q.location, revision)]))
  {
    var n' := Reply(n, q, reply);
    if reply.Some? && q.location in n.entries {
      assert |n'.events| + |n'.queries| == |n.events| + |n.queries| + 1;
    }
  }

  // ---------------------------------------------------------------- owner changes

  /** An owner change empties the cache, posts a removal for each known location and then the loss,
      forgets what was kept, and asks for a listing at once, under a new generation, if there is a new
      owner. */
  lemma OwnerChangeEmpties(n: Native, running: bool, order: seq<Location>)
    requires Enumerates(order, n.entries.Keys)
    ensures var n' := OwnerChange(n, running, order);
      && n'.entries == map[] && n'.pending == [] && n'.resynchronizing == running
      && n'.generation == n.generation + 1
      && n'.snapshotCalls == n.snapshotCalls + (if running then [n'.generation] else [])
      && n'.queries == n.queries && n'.nextRevision == n.nextRevision
      && |n'.events| == |n.events| + |n.entries| + 1 && n'.events[|n.events| + |n.entries|] == ServiceLost
      && (forall l :: l in n.entries <==>
            exists i :: |n.events| <= i < |n'.events| && n'.events[i] == Dropped(l))
  {
    var n' := OwnerChange(n, running, order);
    OnceEach(order, n.entries.Keys);
    forall l | l in n.entries
      ensures exists i :: |n.events| <= i < |n'.events| && n'.events[i] == Dropped(l)
    {
      assert l in order;
      var k :| 0 <= k < |order| && order[k] == l;
      assert n'.events[|n.events| + k] == Dropped(l);
    }
  }

  lemma {:induction false} OnceEach<T(!new)>(order: seq<T>, s: set<T>)
    requires Enumerates(order, s)
    ensures |order| == |s|
  {
    if order == [] {
      assert s == {};
    } else {
      var last := |order| - 1;
      assert order == order[..last] + [order[last]];
      OnceEach(order[..last], s - {order[last]});
    }
  }
}
