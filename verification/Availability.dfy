/** What the Dart client says about the service itself: the availability flag and its stream, and
    readiness. They follow the run: the service is up until the cache consumes an owner change, and
    again once the listing asked for at the latest one has been taken. */
module Availability {
  import opened Wrappers
  import opened ObjectCache
  import opened CacheConvergence
  import opened CacheRuns
  import opened ObjectMirror

  // ---------------------------------------------------------------- on the run

  /** The ups and downs of the service, in order, as the steps of the run have them. */
  ghost function Turns(s: System, actions: seq<Action>): seq<bool>
    requires Runs(s, actions)
    decreases |actions|
  {
    if actions == [] then [] else Turn(s, actions[0]) + Turns(Next(s, actions[0]), actions[1..])
  }

  ghost function Turn(s: System, a: Action): seq<bool>
    requires Enabled(s, a)
  {
    if a.Consumes? && s.sent[s.head].Owner? then [false]
    else if a.SnapshotArrives? && ForLatest(s, s.snapshots[a.i]) then [true]
    else []
  }

  function LastOf(turns: seq<bool>): bool {
    turns == [] || turns[|turns| - 1]
  }

  /** The turns that change something, beginning with a service that is up. */
  function Changes(turns: seq<bool>): seq<bool> {
    if turns == [] then []
    else
      var front, last := turns[..|turns| - 1], turns[|turns| - 1];
      Changes(front) + if last == LastOf(front) then [] else [last]
  }

  /** They alternate: down, up, down, and so on. */
  lemma {:induction false} ChangesAlternate(turns: seq<bool>)
    ensures forall k | 0 <= k < |Changes(turns)| :: Changes(turns)[k] == (k % 2 == 1)
    ensures LastOf(turns) <==> |Changes(turns)| % 2 == 0
  {
    if turns != [] { ChangesAlternate(turns[..|turns| - 1]); }
  }

  lemma ChangesSnoc(turns: seq<bool>, up: bool)
    ensures Changes(turns + [up]) == Changes(turns) + if up == LastOf(turns) then [] else [up]
    ensures LastOf(turns + [up]) == up
  {
    assert (turns + [up])[..|turns|] == turns;
  }

  // ---------------------------------------------------------------- on the posted events

  predicate OfService(e: Event) {
    e.SnapshotDone? || e.ServiceLost? || e.ServiceReady?
  }

  /** The events about the service itself. */
  function Status(events: seq<Event>): seq<Event> {
    if events == [] then []
    else
      var last := events[|events| - 1];
      Status(events[..|events| - 1]) + if OfService(last) then [last] else []
  }

  lemma StatusSnoc(events: seq<Event>, e: Event)
    ensures Status(events + [e]) == Status(events) + if OfService(e) then [e] else []
  {
    assert (events + [e])[..|events|] == events;
  }

  lemma {:induction false} AddObjectStatus(n: Native, o: Object)
    ensures Status(AddObject(n, o).events) == Status(n.events)
    decreases |o.interfaces|
  {
    if o.interfaces != [] {
      var last := |o.interfaces| - 1;
      var front := o.(interfaces := o.interfaces[..last]);
      AddObjectStatus(n, front);
      StatusSnoc(AddObject(n, front).events, Posted(Location(o.path, o.interfaces[last].0), o.interfaces[last].1));
    }
  }

  lemma {:induction false} AddObjectsStatus(n: Native, os: seq<Object>)
    ensures Status(AddObjects(n, os).events) == Status(n.events)
  {
    if os != [] {
      AddObjectsStatus(n, os[..|os| - 1]);
      AddObjectStatus(AddObjects(n, os[..|os| - 1]), os[|os| - 1]);
    }
  }

  lemma {:induction false} RemoveStatus(n: Native, path: Messages.Text, interfaces: seq<Interface>)
    ensures Status(RemoveInterfaces(n, path, interfaces).events) == Status(n.events)
  {
    if interfaces != [] {
      var last := |interfaces| - 1;
      RemoveStatus(n, path, interfaces[..last]);
      StatusSnoc(RemoveInterfaces(n, path, interfaces[..last]).events, Dropped(Location(path, interfaces[last])));
    }
  }

  lemma ApplyStatus(n: Native, u: Update)
    ensures Status(Apply(n, u).events) == Status(n.events)
  {
    match u
    case Added(o) => AddObjectStatus(n, o);
    case Removed(path, interfaces) => RemoveStatus(n, path, interfaces);
    case Changed(path, interface, changed, invalidated) =>
      ChangeStatus(n, Location(path, interface), changed, invalidated);
  }

  lemma ChangeStatus(n: Native, l: Location, changed: Props, invalidated: seq<Messages.Text>)
    ensures Status(Change(n, l, changed, invalidated).events) == Status(n.events)
  {
    if l in n.entries {
      StatusSnoc(n.events, Posted(l, n.entries[l].props + changed));
      assert n.events + [] == n.events;
    }
  }

  lemma {:induction false} ApplyAllStatus(n: Native, us: seq<Update>)
    ensures Status(ApplyAll(n, us).events) == Status(n.events)
  {
    if us != [] {
      ApplyAllStatus(n, us[..|us| - 1]);
      ApplyStatus(ApplyAll(n, us[..|us| - 1]), us[|us| - 1]);
    }
  }

  lemma {:induction false} DropsStatus(events: seq<Event>, order: seq<Location>)
    ensures Status(events + Drops(order)) == Status(events)
  {
    if order == [] {
      assert events + Drops(order) == events;
    } else {
      var last := |order| - 1;
      DropsStatus(events, order[..last]);
      DropsSnoc(events, order);
      StatusSnoc(events + Drops(order[..last]), Dropped(order[last]));
    }
  }

  lemma DropsSnoc(events: seq<Event>, order: seq<Location>)
    requires order != []
    ensures var last := |order| - 1;
      events + Drops(order) == events + Drops(order[..last]) + [Dropped(order[last])]
  {
  }

  /** What a step posts about the service is the turn the run takes there. */
  lemma StepStatus(s: System, a: Action)
    requires Inv(s) && Enabled(s, a)
    ensures Status(Next(s, a).native.events) == Status(s.native.events) + Events(Turn(s, a))
  {
    match a
    case Sends(_, _) =>
    case Consumes(order) => ConsumesStatus(s, order);
    case Answers(i, at) => ReplyStatus(s.native, s.calls[i].query, Look(s.states[at], s.calls[i].query.location));
    case Fails(_) =>
    case SnapshotArrives(i, at, objects) => ArrivalStatus(s, i, at, objects);
    case SnapshotFails(_) =>
  }

  lemma ConsumesStatus(s: System, order: seq<Location>)
    requires Enabled(s, Consumes(order))
    ensures Status(Next(s, Consumes(order)).native.events)
         == Status(s.native.events) + Events(Turn(s, Consumes(order)))
  {
    if s.sent[s.head].Signal? {
      ApplyStatus(s.native, s.sent[s.head].update);
    } else {
      OwnerStatus(s.native, s.sent[s.head].running, order);
    }
  }

  lemma ArrivalStatus(s: System, i: nat, at: nat, objects: seq<Object>)
    requires Inv(s) && Enabled(s, SnapshotArrives(i, at, objects))
    ensures Status(Resynchronized(s, i, at, objects).native.events)
         == Status(s.native.events) + Events(Turn(s, SnapshotArrives(i, at, objects)))
  {
    LatestListing(s, i);
    if ForLatest(s, s.snapshots[i]) { ListingStatus(s.native, objects); }
  }

  lemma OwnerStatus(n: Native, running: bool, order: seq<Location>)
    ensures Status(OwnerChange(n, running, order).events) == Status(n.events) + [ServiceLost]
  {
    DropsStatus(n.events, order);
    StatusSnoc(n.events + Drops(order), ServiceLost);
  }

  lemma ReplyStatus(n: Native, q: Query, reply: Option<Props>)
    ensures Status(Reply(n, q, reply).events) == Status(n.events)
  {
    if Stores(n, q, reply) { StatusSnoc(n.events, Posted(q.location, reply.value)); }
  }

  lemma ListingStatus(n: Native, objects: seq<Object>)
    ensures Status(Snapshot(n, n.generation, Some(objects)).events) == Status(n.events) + [ServiceReady]
  {
    var start := n.(resynchronizing := false, pending := []);
    var added := AddObjects(start, objects);
    AddObjectsStatus(start, objects);
    ApplyAllStatus(added, n.pending);
    StatusSnoc(ApplyAll(added, n.pending).events, ServiceReady);
  }

  function Events(turns: seq<bool>): seq<Event> {
    seq(|turns|, i requires 0 <= i < |turns| => if turns[i] then ServiceReady else ServiceLost)
  }

  lemma EventsAppend(a: seq<bool>, b: seq<bool>, before: seq<Event>)
    ensures before + Events(a) + Events(b) == before + Events(a + b)
  {
  }

  lemma {:induction false} RunStatus(s: System, actions: seq<Action>)
    requires Inv(s) && Runs(s, actions)
    ensures Status(After(s, actions).native.events) == Status(s.native.events) + Events(Turns(s, actions))
    decreases |actions|
  {
    if actions != [] {
      var s', rest := Next(s, actions[0]), actions[1..];
      StepStatus(s, actions[0]);
      StepKeeps(s, actions[0]);
      RunStatus(s', rest);
      EventsAppend(Turn(s, actions[0]), Turns(s', rest), Status(s.native.events));
    }
  }

  // ---------------------------------------------------------------- on the client

  /** What the availability stream has carried. */
  function Heard(announced: seq<Announcement>): seq<bool> {
    if announced == [] then []
    else
      var last := announced[|announced| - 1];
      Heard(announced[..|announced| - 1]) + if last.Availability? then [last.up] else []
  }

  lemma HeardSnoc(announced: seq<Announcement>, a: Announcement)
    ensures Heard(announced + [a]) == Heard(announced) + if a.Availability? then [a.up] else []
  {
    assert (announced + [a])[..|announced|] == announced;
  }

  /** The client's flags agree with these events about the service. */
  ghost predicate Follows(m: Mirror, turns: seq<bool>, ready: bool) {
    m.available == LastOf(turns) && Heard(m.announced) == Changes(turns) && m.ready == ready
  }

  /** An event about an object leaves the flags alone, whatever its bytes. */
  lemma ObjectEventFollows(project: Projection, m: Mirror, e: Event, turns: seq<bool>, ready: bool)
    requires Follows(m, turns, ready) && (e.Posted? || e.Dropped?)
    ensures Follows(Dispatch(m, Wire(project, e)), turns, ready)
  {
    var l := e.location;
    if IsMedia(l.interface) {
      var bytes := Wire(project, e);
      if e.Posted? {
        TagDispatches(m, l.interface, bytes);
        ShowsFollow(m, l.interface, bytes, turns, ready);
      } else {
        RemovalFollows(m, bytes, turns, ready);
      }
    }
  }

  lemma ShowsFollow(m: Mirror, i: Interface, message: seq<WireCodec.byte>, turns: seq<bool>, ready: bool)
    requires Follows(m, turns, ready) && IsMedia(i)
    ensures Follows(ShowProps(m, i, message), turns, ready)
  {
    var props := Messages.DecodeMessage(KindFor(i), message, 1);
    if props.Some? {
      HeardSnoc(m.announced, Appeared(Location(PathOf(props.value.value), i)));
      assert m.announced + [] == m.announced;
    }
  }

  lemma RemovalFollows(m: Mirror, message: seq<WireCodec.byte>, turns: seq<bool>, ready: bool)
    requires Follows(m, turns, ready) && message != [] && message[0] == 0x7E
    ensures Follows(Dispatch(m, message), turns, ready)
  {
    var removed := Messages.DecodeMessage(Messages.RemovedKind, message, 1);
    if removed.Some? {
      HidingFollows(m, Location(removed.value.value.objectPath, ParseName(removed.value.value.interfaceName)),
                    turns, ready);
    }
  }

  lemma HidingFollows(m: Mirror, gone: Location, turns: seq<bool>, ready: bool)
    requires Follows(m, turns, ready)
    ensures Follows(HideProxy(m, gone), turns, ready)
  {
    var before, kept := m.announced, m.announced + [Vanished(gone)];
    HidingKeepsFlags(m, gone);
    assert Heard(kept) == Heard(before) by {
      HeardSnoc(before, Vanished(gone));
      assert Heard(before) + [] == Heard(before);
    }
  }

  lemma HidingKeepsFlags(m: Mirror, gone: Location)
    ensures var m' := HideProxy(m, gone);
      && m'.available == m.available && m'.ready == m.ready
      && (m'.announced == m.announced || m'.announced == m.announced + [Vanished(gone)])
  {
    match gone.interface
    case Player =>
    case Control =>
    case Transport =>
    case Folder =>
    case Item =>
    case Other(_) =>
  }

  /** An event about the service turns the flag as it says, and is announced if that is news. */
  lemma ServiceEventFollows(project: Projection, m: Mirror, up: bool, turns: seq<bool>, ready: bool)
    requires Follows(m, turns, ready)
    ensures Follows(Dispatch(m, Wire(project, if up then ServiceReady else ServiceLost)), turns + [up], ready)
  {
    ChangesSnoc(turns, up);
    HeardSnoc(m.announced, Availability(up));
  }

  lemma ListedEventFollows(project: Projection, m: Mirror, turns: seq<bool>, ready: bool)
    requires Follows(m, turns, ready)
    ensures Follows(Dispatch(m, Wire(project, SnapshotDone)), turns, true)
  {
  }

  /** The turns that the events tell. */
  function Told(events: seq<Event>): seq<bool> {
    if events == [] then []
    else
      var last := events[|events| - 1];
      Told(events[..|events| - 1]) + if last.ServiceLost? then [false] else if last.ServiceReady? then [true] else []
  }

  lemma ToldSnoc(events: seq<Event>, e: Event)
    ensures Told(events + [e]) ==
      Told(events) + if e.ServiceLost? then [false] else if e.ServiceReady? then [true] else []
    ensures SnapshotDone in events + [e] <==> SnapshotDone in events || e == SnapshotDone
  {
    assert (events + [e])[..|events|] == events;
  }

  lemma EventFollows(project: Projection, m: Mirror, events: seq<Event>, e: Event)
    requires Follows(m, Told(events), SnapshotDone in events)
    ensures Follows(Dispatch(m, Wire(project, e)), Told(events + [e]), SnapshotDone in events + [e])
  {
    var turns, ready := Told(events), SnapshotDone in events;
    ToldSnoc(events, e);
    assert turns + [] == turns;
    match e
    case SnapshotDone => ListedEventFollows(project, m, turns, ready);
    case ServiceLost => ServiceEventFollows(project, m, false, turns, ready);
    case ServiceReady => ServiceEventFollows(project, m, true, turns, ready);
    case _ => ObjectEventFollows(project, m, e, turns, ready);
  }

  lemma {:induction false} ReplayFollows(project: Projection, events: seq<Event>)
    ensures Follows(Replayed(project, events), Told(events), SnapshotDone in events)
  {
    if events != [] {
      var front, last := events[..|events| - 1], events[|events| - 1];
      ReplayFollows(project, front);
      EventFollows(project, Replayed(project, front), front, last);
      assert events == front + [last];
    }
  }

  lemma {:induction false} ToldByStatus(events: seq<Event>)
    ensures Told(events) == Told(Status(events))
    ensures SnapshotDone in events <==> SnapshotDone in Status(events)
  {
    if events != [] {
      var front, last := events[..|events| - 1], events[|events| - 1];
      ToldByStatus(front);
      assert Status(front) + [] == Status(front);
      assert (Status(front) + [last])[..|Status(front)|] == Status(front);
      assert SnapshotDone in events <==> SnapshotDone in front || last == SnapshotDone;
    }
  }

  lemma {:induction false} ToldEvents(turns: seq<bool>)
    ensures Told([SnapshotDone] + Events(turns)) == turns
  {
    var events := [SnapshotDone] + Events(turns);
    if turns == [] {
      assert events[..0] == [];
    } else {
      var front := turns[..|turns| - 1];
      ToldEvents(front);
      assert events[..|events| - 1] == [SnapshotDone] + Events(front);
      assert turns == front + [turns[|turns| - 1]];
    }
  }

  // ---------------------------------------------------------------- the client follows the run

  /** In every reachable state, whatever the messages hold, the client is ready; its availability flag
      is the last turn the run took; and its stream has carried the turns that changed something, so
      false and true in alternation. */
  lemma ClientFollowsRun(project: Projection, start: System, actions: seq<Action>)
    requires Init(start) && Runs(start, actions)
    ensures var m := Replayed(project, After(start, actions).native.events);
      && m.ready
      && m.available == LastOf(Turns(start, actions))
      && Heard(m.announced) == Changes(Turns(start, actions))
      && (forall k | 0 <= k < |Heard(m.announced)| :: Heard(m.announced)[k] == (k % 2 == 1))
  {
    InitHolds(start);
    FirstStatus(start);
    RunStatus(start, actions);
    var events, turns := After(start, actions).native.events, Turns(start, actions);
    ToldByStatus(events);
    ToldEvents(turns);
    ReplayFollows(project, events);
    ChangesAlternate(turns);
  }

  lemma FirstStatus(start: System)
    requires Init(start)
    ensures Status(start.native.events) == [SnapshotDone]
  {
    var objects :| Lists(objects, start.states[|start.sent|]) && start.native == FirstSnapshot(EMPTY, objects);
    AddObjectsStatus(EMPTY, objects);
    StatusSnoc(AddObjects(EMPTY, objects).events, SnapshotDone);
  }

  /** No owner change has been consumed yet. */
  ghost predicate NoOwnerChange(s: System)
    requires s.head <= |s.sent|
  {
    forall k: nat | k < s.head :: !s.sent[k].Owner?
  }

  /** The latest owner change consumed brought a new owner, whose listing has been taken: its call is
      no longer outstanding and did not fail. */
  ghost predicate LatestListed(s: System)
    requires s.head <= |s.sent|
  {
    && (exists k: nat :: k < s.head && s.sent[k] == Owner(true) && forall j: nat | k < j < s.head :: !s.sent[j].Owner?)
    && !AwaitsListing(s) && s.failedAt.None?
  }

  ghost predicate Up(s: System)
    requires s.head <= |s.sent|
  {
    NoOwnerChange(s) || LatestListed(s)
  }

  /** Equivalently, on the state alone: the client says that the service is available if and only if
      no owner change has been consumed, or the latest owner's listing has been taken. */
  lemma AvailableIffListed(project: Projection, start: System, actions: seq<Action>)
    requires Init(start) && Runs(start, actions)
    ensures var s := After(start, actions);
      s.head <= |s.sent| && (Replayed(project, s.native.events).available <==> Up(s))
  {
    ClientFollowsRun(project, start, actions);
    InitHolds(start);
    RunUp(start, actions, true);
  }

  /** Where the turns lead from `up`. */
  function LastFrom(up: bool, turns: seq<bool>): bool {
    if turns == [] then up else turns[|turns| - 1]
  }

  lemma LastFromAppend(up: bool, a: seq<bool>, b: seq<bool>)
    ensures LastFrom(up, a + b) == LastFrom(LastFrom(up, a), b)
  {
  }

  lemma {:induction false} RunUp(s: System, actions: seq<Action>, up: bool)
    requires Inv(s) && Runs(s, actions) && (up <==> Up(s))
    ensures Inv(After(s, actions)) && (LastFrom(up, Turns(s, actions)) <==> Up(After(s, actions)))
    decreases |actions|
  {
    if actions != [] {
      var s', rest, turn := Next(s, actions[0]), actions[1..], Turn(s, actions[0]);
      StepKeeps(s, actions[0]);
      StepUp(s, actions[0]);
      RunUp(s', rest, LastFrom(up, turn));
      LastFromAppend(up, turn, Turns(s', rest));
    }
  }

  lemma StepUp(s: System, a: Action)
    requires Inv(s) && Enabled(s, a)
    ensures Next(s, a).head <= |Next(s, a).sent|
    ensures Up(Next(s, a)) <==> LastFrom(Up(s), Turn(s, a))
  {
    var s' := Next(s, a);
    match a
    case Sends(_, _) => SameUp(s, s');
    case Consumes(order) => if s.sent[s.head].Signal? { SameUp(s, s'); } else { DownAfterOwner(s, order); }
    case Answers(_, _) => SameUp(s, s');
    case Fails(_) => SameUp(s, s');
    case SnapshotArrives(i, _, _) => AnsweredUp(s, i, s');
    case SnapshotFails(i) => AnsweredUp(s, i, s');
  }

  /** Nothing that matters has changed if no owner change is consumed and no snapshot answered. */
  lemma SameUp(s: System, s': System)
    requires s.head <= |s.sent| && s'.head <= |s'.sent| && s.head <= s'.head && s.sent <= s'.sent
    requires forall k: nat | s.head <= k < s'.head :: !s'.sent[k].Owner?
    requires s'.snapshots == s.snapshots && s'.failedAt == s.failedAt
    ensures Up(s') <==> Up(s)
  {
    assert forall k: nat | k < s.head :: s'.sent[k] == s.sent[k];
    assert forall i | 0 <= i < |s.snapshots| :: ForLatest(s', s.snapshots[i]) == ForLatest(s, s.snapshots[i]);
  }

  lemma DownAfterOwner(s: System, order: seq<Location>)
    requires Inv(s) && Enabled(s, Consumes(order)) && s.sent[s.head].Owner?
    ensures var s' := Next(s, Consumes(order)); s'.head <= |s'.sent| && !Up(s')
  {
    var s' := Next(s, Consumes(order));
    assert s'.sent[s.head].Owner?;
    if s.sent[s.head].running {
      var last := |s'.snapshots| - 1;
      assert s'.snapshots[last] == Listing(s'.native.generation, s'.head);
      assert ForLatest(s', s'.snapshots[last]);
    }
  }

  /** The answer for the latest owner brings the service back, unless it is a failure; others do not
      matter. */
  lemma AnsweredUp(s: System, i: nat, s': System)
    requires Inv(s) && i < |s.snapshots|
    requires s'.head == s.head && s'.sent == s.sent && s'.snapshots == Without(s.snapshots, i)
    requires s'.failedAt == s.failedAt || (ForLatest(s, s.snapshots[i]) && s'.failedAt.Some?)
    ensures Up(s') <==> if ForLatest(s, s.snapshots[i]) then s'.failedAt.None? else Up(s)
  {
    LatestListing(s, i);
    assert ListingOk(s, s.snapshots[i]);
    forall k | 0 <= k < |s'.snapshots|
      ensures ForLatest(s', s'.snapshots[k]) == ForLatest(s, s.snapshots[if k < i then k else k + 1])
    {
      LatestListing(s, if k < i then k else k + 1);
    }
    if ForLatest(s, s.snapshots[i]) {
      var k := s.snapshots[i].since - 1;
      assert s.sent[k] == Owner(true);
      forall n | 0 <= n < |s'.snapshots|
        ensures !ForLatest(s', s'.snapshots[n])
      {
        LatestListing(s, if n < i then n else n + 1);
      }
    } else {
      OthersAwait(s, i, s');
    }
  }

  lemma OthersAwait(s: System, i: nat, s': System)
    requires Inv(s) && i < |s.snapshots| && !ForLatest(s, s.snapshots[i])
    requires s'.head == s.head && s'.sent == s.sent && s'.snapshots == Without(s.snapshots, i)
    ensures AwaitsListing(s') == AwaitsListing(s)
  {
    if AwaitsListing(s) {
      var n :| 0 <= n < |s.snapshots| && ForLatest(s, s.snapshots[n]);
      WithoutAt(s.snapshots, i, n);
      assert ForLatest(s', s'.snapshots[if n < i then n else n - 1]);
    }
    if AwaitsListing(s') {
      var n :| 0 <= n < |s'.snapshots| && ForLatest(s', s'.snapshots[n]);
      assert ForLatest(s, s.snapshots[if n < i then n else n + 1]);
    }
  }
}
