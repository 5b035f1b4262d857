/** The cache protocol between the BlueZ service and the native object cache, as a transition
    system, and its convergence.

    Signals reach the cache in the order the service sent them. Replies do not have to: a GetAll
    or GetManagedObjects reply may describe any state the service has been in since the call,
    however many signals were sent or consumed in between. The system keeps the whole history of
    service states so that each reply can name the state it describes. */
module CacheConvergence {
  import opened Wrappers
  import opened Messages
  import opened ObjectCache

  /** What the service exports, by location. */
  type Service = map<Location, Props>

  datatype Notice = Signal(update: Update) | Owner(running: bool)

  /** An unanswered GetAll call, with the number of messages consumed when it was made. */
  datatype Call = Call(query: Query, since: nat)

  /** An unanswered GetManagedObjects call, likewise. */
  datatype Listing = Listing(generation: nat, since: nat)

  /** Which service state a cached value was read from: `base` for the location as a whole, and a
      state of its own for each key changed since. */
  datatype Age = Age(base: nat, keys: map<Text, nat>)

  /** `states[k]` is the service before `sent[k]`; `sent[head..]` are still to be consumed.
      The last three fields are bookkeeping: the age of what is cached, locations whose invalidated
      keys nobody asks for any more because a GetAll failed, and, if the latest owner's snapshot
      failed, how many messages had been consumed by then. */
  datatype System = System(
    native: Native,
    states: seq<Service>,
    sent: seq<Notice>,
    head: nat,
    calls: seq<Call>,
    snapshots: seq<Listing>,
    age: Location -> Age,
    tainted: set<Location>,
    failedAt: Option<nat>)

  // ---------------------------------------------------------------- one location

  function Look(t: Service, l: Location): Option<Props> {
    if l in t then Some(t[l]) else None
  }

  function Cell(n: Native, l: Location): Option<Props> {
    if l in n.entries then Some(n.entries[l].props) else None
  }

  function Get(c: Option<Props>, k: Text): Option<Variant> {
    if c.Some? && k in c.value then Some(c.value[k]) else None
  }

  function LastFor(interfaces: seq<(Interface, Props)>, i: Interface): Option<Props> {
    if interfaces == [] then None
    else
      var last := |interfaces| - 1;
      if interfaces[last].0 == i then Some(interfaces[last].1) else LastFor(interfaces[..last], i)
  }

  function AddedAt(o: Object, l: Location): Option<Props> {
    if o.path == l.path then LastFor(o.interfaces, l.interface) else None
  }

  predicate ChangedAt(u: Update, l: Location) {
    u.Changed? && Location(u.path, u.interface) == l
  }

  /** The update decides the whole of `l`: it adds or removes it. */
  predicate Resets(u: Update, l: Location) {
    match u
    case Added(o) => AddedAt(o, l).Some?
    case Removed(path, interfaces) => path == l.path && l.interface in interfaces
    case Changed(_, _, _, _) => false
  }

  predicate Touches(u: Update, l: Location) {
    Resets(u, l) || ChangedAt(u, l)
  }

  /** What the update makes of the value at `l`, as far as its own content says. */
  function Effect(u: Update, l: Location, c: Option<Props>): Option<Props> {
    match u
    case Added(o) => if AddedAt(o, l).Some? then AddedAt(o, l) else c
    case Removed(_, _) => if Resets(u, l) then None else c
    case Changed(_, _, changed, _) => if ChangedAt(u, l) && c.Some? then Some(c.value + changed) else c
  }

  /** The keys it names without a value. */
  function Invalidates(u: Update, l: Location): set<Text> {
    if ChangedAt(u, l) then set k | k in u.invalidated else {}
  }

  // ---------------------------------------------------------------- the service

  /** A service at `a` on `l` may send `u` and be at `b`. Invalidated keys may take any value. */
  ghost predicate LinkAt(u: Update, l: Location, a: Option<Props>, b: Option<Props>) {
    && (ChangedAt(u, l) ==> a.Some?)
    && b.Some? == Effect(u, l, a).Some?
    && forall k | k !in Invalidates(u, l) :: Get(b, k) == Get(Effect(u, l, a), k)
  }

  ghost predicate Link(t: Service, m: Notice, t': Service) {
    match m
    case Signal(u) => forall l: Location | IsMedia(l.interface) :: LinkAt(u, l, Look(t, l), Look(t', l))
    case Owner(running) => !running ==> t' == map[]
  }

  ghost predicate LinkedAt(states: seq<Service>, sent: seq<Notice>, k: nat)
    requires |states| == |sent| + 1 && k < |sent|
  {
    Link(states[k], sent[k], states[k + 1])
  }

  ghost predicate Chain(states: seq<Service>, sent: seq<Notice>) {
    |states| == |sent| + 1 && forall k: nat | k < |sent| :: LinkedAt(states, sent, k)
  }

  function ListedAt(objects: seq<Object>, l: Location, c: Option<Props>): Option<Props> {
    if objects == [] then c
    else
      var last := |objects| - 1;
      Effect(Added(objects[last]), l, ListedAt(objects[..last], l, c))
  }

  /** The reply lists exactly what the service exports. */
  ghost predicate Lists(objects: seq<Object>, t: Service) {
    forall l: Location | IsMedia(l.interface) :: ListedAt(objects, l, None) == Look(t, l)
  }

  // ---------------------------------------------------------------- agreement

  /** The cached value is the service's, except perhaps on the keys in `d`. */
  ghost predicate Agree(c: Option<Props>, t: Option<Props>, d: iset<Text>) {
    c.Some? == t.Some? && forall k | k !in d :: Get(c, k) == Get(t, k)
  }

  function KeyAge(a: Age, k: Text): nat {
    if k in a.keys then a.keys[k] else a.base
  }

  /** The age after message number `i`. A key both changed and invalidated by it stays as old as
      the state before, since its value afterwards is not told. */
  function AgeNext(u: Update, i: nat, l: Location, a: Age, known: bool): Age {
    if Resets(u, l) then Age(i + 1, map[])
    else if ChangedAt(u, l) && known then
      a.(keys := a.keys + map k | k in u.changed :: if k in u.invalidated then i else i + 1)
    else a
  }

  ghost predicate ResetsIn(sent: seq<Notice>, i: nat, l: Location)
    requires i < |sent|
  {
    sent[i].Owner? || Resets(sent[i].update, l)
  }

  ghost predicate TouchesIn(sent: seq<Notice>, i: nat, l: Location)
    requires i < |sent|
  {
    sent[i].Owner? || Touches(sent[i].update, l)
  }

  ghost predicate InvalidatedIn(sent: seq<Notice>, i: nat, l: Location, k: Text)
    requires i < |sent|
  {
    sent[i].Signal? && k in Invalidates(sent[i].update, l)
  }

  /** Message `i` says nothing of `k` at `l`, except perhaps that it is invalid. */
  ghost predicate Spares(sent: seq<Notice>, i: nat, l: Location, k: Text)
    requires i < |sent|
  {
    && !ResetsIn(sent, i, l)
    && (sent[i].Signal? && ChangedAt(sent[i].update, l) && k in sent[i].update.changed ==> InvalidatedIn(sent, i, l, k))
  }

  /** The key was invalidated by one of the first `h` messages, after the state it was read from. */
  ghost predicate StaleKey(sent: seq<Notice>, h: nat, l: Location, a: Age, k: Text)
    requires h <= |sent|
  {
    exists i: nat :: KeyAge(a, k) <= i < h && InvalidatedIn(sent, i, l, k)
  }

  ghost predicate KeySeen(states: seq<Service>, sent: seq<Notice>, h: nat, l: Location,
                          c: Option<Props>, a: Age, k: Text)
    requires |states| == |sent| + 1 && h <= |sent|
  {
    && KeyAge(a, k) < |states|
    && (forall i: nat | KeyAge(a, k) <= i < h :: Spares(sent, i, l, k))
    && (!StaleKey(sent, h, l, a, k) ==> Get(c, k) == Get(Look(states[KeyAge(a, k)], l), k))
  }

  /** `l` exists in the cache as it did at its base state, which no message consumed since then
      removed or replaced. */
  ghost predicate PresenceSeen(states: seq<Service>, sent: seq<Notice>, h: nat, l: Location,
                               c: Option<Props>, a: Age)
    requires |states| == |sent| + 1 && h <= |sent|
  {
    && a.base < |states| && c.Some? == Look(states[a.base], l).Some?
    && (c.None? ==> a.keys == map[])
    && (forall i: nat | a.base <= i < h :: !ResetsIn(sent, i, l))
  }

  /** A cache that has consumed `h` messages holds, key by key, what its age says, except on stale
      keys. The state a value was read from may be ahead of the messages consumed. */
  ghost predicate Seen(states: seq<Service>, sent: seq<Notice>, h: nat, l: Location, c: Option<Props>, a: Age)
    requires |states| == |sent| + 1 && h <= |sent|
  {
    && PresenceSeen(states, sent, h, l, c, a)
    && forall k :: KeySeen(states, sent, h, l, c, a, k)
  }

  /** A value just read from a state is as old as that state. */
  lemma JustSeen(states: seq<Service>, sent: seq<Notice>, h: nat, at: nat, l: Location)
    requires |states| == |sent| + 1 && h <= |sent| && h <= at < |states|
    ensures Seen(states, sent, h, l, Look(states[at], l), Age(at, map[]))
  {
    var c, a := Look(states[at], l), Age(at, map[]);
    assert forall k :: KeySeen(states, sent, h, l, c, a, k);
  }

  /** States apart only by messages that neither add nor remove `l` agree on whether it exists. */
  lemma {:induction false} UnresetPresence(states: seq<Service>, sent: seq<Notice>, l: Location, lo: nat, hi: nat)
    requires Chain(states, sent) && lo <= hi <= |sent| && IsMedia(l.interface)
    requires forall i: nat | lo <= i < hi :: !ResetsIn(sent, i, l)
    ensures Look(states[lo], l).Some? == Look(states[hi], l).Some?
    decreases hi
  {
    if lo < hi {
      UnresetPresence(states, sent, l, lo, hi - 1);
      assert !ResetsIn(sent, hi - 1, l);
      assert LinkedAt(states, sent, hi - 1);
      assert LinkAt(sent[hi - 1].update, l, Look(states[hi - 1], l), Look(states[hi], l));
    }
  }

  /** A key that no message speaks of keeps its value. */
  lemma {:induction false} SparedKey(states: seq<Service>, sent: seq<Notice>, l: Location, k: Text, lo: nat, hi: nat)
    requires Chain(states, sent) && lo <= hi <= |sent| && IsMedia(l.interface)
    requires forall i: nat | lo <= i < hi :: Spares(sent, i, l, k) && !InvalidatedIn(sent, i, l, k)
    ensures Get(Look(states[lo], l), k) == Get(Look(states[hi], l), k)
    decreases hi
  {
    if lo < hi {
      SparedKey(states, sent, l, k, lo, hi - 1);
      assert Spares(sent, hi - 1, l, k) && !InvalidatedIn(sent, hi - 1, l, k);
      assert LinkedAt(states, sent, hi - 1);
      assert LinkAt(sent[hi - 1].update, l, Look(states[hi - 1], l), Look(states[hi], l));
    }
  }

  /** An unknown location is not known to the service either when a message not ahead of the cache
      arrives, so that message cannot change it. */
  lemma UnknownIsUnchanged(states: seq<Service>, sent: seq<Notice>, h: nat, l: Location, a: Age)
    requires Chain(states, sent) && h < |sent| && sent[h].Signal? && IsMedia(l.interface)
    requires PresenceSeen(states, sent, h, l, None, a) && a.base <= h
    ensures !ChangedAt(sent[h].update, l)
  {
    UnresetPresence(states, sent, l, a.base, h);
    assert LinkedAt(states, sent, h);
    assert LinkAt(sent[h].update, l, Look(states[h], l), Look(states[h + 1], l));
  }

  lemma PresenceStep(states: seq<Service>, sent: seq<Notice>, h: nat, l: Location, c: Option<Props>, a: Age)
    requires Chain(states, sent) && h < |sent| && sent[h].Signal? && IsMedia(l.interface)
    requires PresenceSeen(states, sent, h, l, c, a)
    ensures var u := sent[h].update;
      PresenceSeen(states, sent, h + 1, l, Effect(u, l, c), AgeNext(u, h, l, a, c.Some?))
  {
    assert LinkedAt(states, sent, h);
    assert LinkAt(sent[h].update, l, Look(states[h], l), Look(states[h + 1], l));
  }

  /** A message that replaces the location decides every key. */
  lemma ResetStep(states: seq<Service>, sent: seq<Notice>, h: nat, l: Location, c: Option<Props>, a: Age)
    requires Chain(states, sent) && h < |sent| && sent[h].Signal? && IsMedia(l.interface)
    requires Resets(sent[h].update, l)
    ensures var u := sent[h].update;
      Seen(states, sent, h + 1, l, Effect(u, l, c), AgeNext(u, h, l, a, c.Some?))
  {
    var u := sent[h].update;
    assert LinkedAt(states, sent, h);
    assert LinkAt(u, l, Look(states[h], l), Look(states[h + 1], l));
    var next, c', a' := h + 1, Effect(u, l, c), Age(h + 1, map[]);
    forall k
      ensures KeySeen(states, sent, next, l, c', a', k)
    {
      assert k !in Invalidates(u, l);
    }
  }

  lemma KeyStep(states: seq<Service>, sent: seq<Notice>, h: nat, l: Location, c: Option<Props>, a: Age, k: Text)
    requires Chain(states, sent) && h < |sent| && sent[h].Signal? && IsMedia(l.interface)
    requires !Resets(sent[h].update, l)
    requires PresenceSeen(states, sent, h, l, c, a) && KeySeen(states, sent, h, l, c, a, k)
    ensures var u := sent[h].update;
      KeySeen(states, sent, h + 1, l, Effect(u, l, c), AgeNext(u, h, l, a, c.Some?), k)
  {
    var u := sent[h].update;
    var a' := AgeNext(u, h, l, a, c.Some?);
    assert LinkedAt(states, sent, h);
    assert LinkAt(u, l, Look(states[h], l), Look(states[h + 1], l));
    if ChangedAt(u, l) && c.Some? && k in u.changed {
      assert KeyAge(a', k) == if k in u.invalidated then h else h + 1;
      if k in u.invalidated { assert InvalidatedIn(sent, h, l, k); }
    } else {
      assert KeyAge(a', k) == KeyAge(a, k);
      if c.None? && a.base <= h { UnknownIsUnchanged(states, sent, h, l, a); }
      assert Get(Effect(u, l, c), k) == Get(c, k);
      if KeyAge(a, k) <= h { assert Spares(sent, h, l, k); }
      if StaleKey(sent, h, l, a, k) {
        var i: nat :| KeyAge(a, k) <= i < h && InvalidatedIn(sent, i, l, k);
        assert KeyAge(a', k) <= i < h + 1;
      }
    }
  }

  /** Consuming one more message keeps the cache at its age. */
  lemma SeenStep(states: seq<Service>, sent: seq<Notice>, h: nat, l: Location, c: Option<Props>, a: Age)
    requires Chain(states, sent) && h < |sent| && sent[h].Signal? && IsMedia(l.interface)
    requires Seen(states, sent, h, l, c, a)
    ensures var u := sent[h].update;
      Seen(states, sent, h + 1, l, Effect(u, l, c), AgeNext(u, h, l, a, c.Some?))
  {
    var u := sent[h].update;
    if Resets(u, l) {
      ResetStep(states, sent, h, l, c, a);
    } else {
      PresenceStep(states, sent, h, l, c, a);
      var next, c', a' := h + 1, Effect(u, l, c), AgeNext(u, h, l, a, c.Some?);
      forall k
        ensures KeySeen(states, sent, next, l, c', a', k)
      {
        KeyStep(states, sent, h, l, c, a, k);
      }
    }
  }

  /** The keys that may differ from the service once the first `h` messages are consumed. */
  ghost function StaleKeys(sent: seq<Notice>, h: nat, l: Location, a: Age): iset<Text>
    requires h <= |sent|
  {
    iset k | StaleKey(sent, h, l, a, k)
  }

  /** A cache that has consumed everything agrees with the service off its stale keys. */
  lemma SeenAgrees(states: seq<Service>, sent: seq<Notice>, l: Location, c: Option<Props>, a: Age)
    requires Chain(states, sent) && IsMedia(l.interface) && Seen(states, sent, |sent|, l, c, a)
    ensures Agree(c, Look(states[|sent|], l), StaleKeys(sent, |sent|, l, a))
  {
    UnresetPresence(states, sent, l, a.base, |sent|);
    forall k | !StaleKey(sent, |sent|, l, a, k)
      ensures Get(c, k) == Get(Look(states[|sent|], l), k)
    {
      assert KeySeen(states, sent, |sent|, l, c, a, k);
      SparedKey(states, sent, l, k, KeyAge(a, k), |sent|);
    }
  }

  // ---------------------------------------------------------------- the cache, location by location

  ghost predicate NativeOk(n: Native) {
    forall l | l in n.entries :: IsMedia(l.interface) && n.entries[l].revision <= n.nextRevision
  }

  /** `after` comes from `before` by applying updates: entries are kept or get a newer revision,
      and each new query carries a revision its location does not fall behind. */
  ghost predicate Grows(before: Native, after: Native) {
    && NativeOk(after)
    && before.nextRevision <= after.nextRevision
    && after == after.(generation := before.generation, resynchronizing := before.resynchronizing,
                       pending := before.pending, snapshotCalls := before.snapshotCalls)
    && |before.queries| <= |after.queries|
    && after.queries[..|before.queries|] == before.queries
    && (forall l | l in after.entries ::
          (l in before.entries && after.entries[l].revision == before.entries[l].revision)
          || after.entries[l].revision > before.nextRevision)
    && (forall i | |before.queries| <= i < |after.queries| :: QueryOk(after, after.queries[i]))
  }

  ghost predicate QueryOk(n: Native, q: Query) {
    && IsMedia(q.location.interface)
    && q.revision <= n.nextRevision
    && (q.location in n.entries ==> q.revision <= n.entries[q.location].revision)
  }

  lemma GrowsTransitively(a: Native, b: Native, c: Native)
    requires Grows(a, b) && Grows(b, c)
    ensures Grows(a, c)
  {
    assert c.queries[..|a.queries|] == b.queries[..|a.queries|];
    forall i | |a.queries| <= i < |c.queries|
      ensures QueryOk(c, c.queries[i])
    {
      if i < |b.queries| {
        assert c.queries[i] == b.queries[i] && QueryOk(b, b.queries[i]);
      }
    }
  }

  /** A touched location is gone or has a newer revision; an untouched one is as before. */
  ghost predicate Touched(before: Native, after: Native, l: Location, touched: bool) {
    if touched then l in after.entries ==> after.entries[l].revision > before.nextRevision
    else (l in before.entries <==> l in after.entries)
         && (l in after.entries ==> after.entries[l] == before.entries[l])
  }

  lemma AddOneAt(n: Native, k: Location, props: Props, l: Location)
    requires NativeOk(n) && IsMedia(l.interface)
    ensures Grows(n, AddOne(n, k, props))
    ensures Touched(n, AddOne(n, k, props), l, k == l)
    ensures Cell(AddOne(n, k, props), l) == if k == l then Some(props) else Cell(n, l)
  {
  }

  lemma {:induction false} AddObjectAt(n: Native, o: Object, l: Location)
    requires NativeOk(n) && IsMedia(l.interface)
    ensures Grows(n, AddObject(n, o)) && AddObject(n, o).queries == n.queries
    ensures Touched(n, AddObject(n, o), l, AddedAt(o, l).Some?)
    ensures Cell(AddObject(n, o), l) == Effect(Added(o), l, Cell(n, l))
    decreases |o.interfaces|
  {
    if o.interfaces != [] {
      var last := |o.interfaces| - 1;
      var front := AddObject(n, o.(interfaces := o.interfaces[..last]));
      AddObjectAt(n, o.(interfaces := o.interfaces[..last]), l);
      AddOneAt(front, Location(o.path, o.interfaces[last].0), o.interfaces[last].1, l);
      GrowsTransitively(n, front, AddObject(n, o));
    }
  }

  lemma {:induction false} RemoveInterfacesAt(n: Native, path: Text, interfaces: seq<Interface>, l: Location)
    requires NativeOk(n) && IsMedia(l.interface)
    ensures Grows(n, RemoveInterfaces(n, path, interfaces))
    ensures RemoveInterfaces(n, path, interfaces).queries == n.queries
    ensures Touched(n, RemoveInterfaces(n, path, interfaces), l, path == l.path && l.interface in interfaces)
    ensures path == l.path && l.interface in interfaces ==> l !in RemoveInterfaces(n, path, interfaces).entries
  {
    if interfaces != [] {
      RemoveInterfacesAt(n, path, interfaces[..|interfaces| - 1], l);
    }
  }

  /** Applying an update acts on each location as Effect says. */
  lemma ApplyAt(n: Native, u: Update, l: Location)
    requires NativeOk(n) && IsMedia(l.interface)
    ensures Grows(n, Apply(n, u))
    ensures Touched(n, Apply(n, u), l, Touches(u, l))
    ensures Cell(Apply(n, u), l) == Effect(u, l, Cell(n, l))
  {
    match u
    case Added(o) => AddObjectAt(n, o, l);
    case Removed(path, interfaces) => RemoveInterfacesAt(n, path, interfaces, l);
    case Changed(path, interface, changed, invalidated) =>
  }

  lemma {:induction false} AddObjectsAt(n: Native, os: seq<Object>, l: Location)
    requires NativeOk(n) && IsMedia(l.interface)
    ensures Grows(n, AddObjects(n, os)) && AddObjects(n, os).queries == n.queries
    ensures Cell(AddObjects(n, os), l) == ListedAt(os, l, Cell(n, l))
  {
    if os != [] {
      var last := |os| - 1;
      AddObjectsAt(n, os[..last], l);
      AddObjectAt(AddObjects(n, os[..last]), os[last], l);
      GrowsTransitively(n, AddObjects(n, os[..last]), AddObjects(n, os));
    }
  }

  // ---------------------------------------------------------------- replay

  /** The age after replaying messages number `base` and following. */
  function AgeReplayed(n: Native, us: seq<Update>, base: nat, l: Location, a: Age): Age {
    if us == [] then a
    else
      var last := |us| - 1;
      AgeNext(us[last], base + last, l, AgeReplayed(n, us[..last], base, l, a), l in ApplyAll(n, us[..last]).entries)
  }

  /** Some query beyond the first `from` asks for `l`. */
  ghost predicate Asked(queries: seq<Query>, from: nat, l: Location) {
    exists i :: from <= i < |queries| && queries[i].location == l
  }

  lemma {:induction false} ApplyAllGrows(n: Native, us: seq<Update>)
    requires NativeOk(n)
    ensures Grows(n, ApplyAll(n, us))
  {
    if us != [] {
      var front := ApplyAll(n, us[..|us| - 1]);
      ApplyAllGrows(n, us[..|us| - 1]);
      ApplyAt(front, us[|us| - 1], Location([], Player));
      GrowsTransitively(n, front, ApplyAll(n, us));
    }
  }

  /** The message number of each replayed update. */
  ghost predicate Kept(sent: seq<Notice>, base: nat, us: seq<Update>) {
    base + |us| <= |sent| && forall k | 0 <= k < |us| :: sent[base + k] == Signal(us[k])
  }

  lemma ReplayStep(states: seq<Service>, sent: seq<Notice>, h: nat, next: nat,
                   l: Location, n: Native, u: Update, a: Age, k: Text)
    requires Chain(states, sent) && h < |sent| && next == h + 1 && sent[h] == Signal(u)
    requires NativeOk(n) && IsMedia(l.interface)
    requires PresenceSeen(states, sent, h, l, Cell(n, l), a) && KeySeen(states, sent, h, l, Cell(n, l), a, k)
    ensures var c', a' := Cell(Apply(n, u), l), AgeNext(u, h, l, a, l in n.entries);
      PresenceSeen(states, sent, next, l, c', a') && KeySeen(states, sent, next, l, c', a', k)
  {
    ApplyAt(n, u, l);
    if Resets(u, l) {
      ResetStep(states, sent, h, l, Cell(n, l), a);
    } else {
      PresenceStep(states, sent, h, l, Cell(n, l), a);
      KeyStep(states, sent, h, l, Cell(n, l), a, k);
    }
  }

  /** The last of the replayed updates, `m` and `b` being what the others lead to. */
  lemma ReplayLastAt(states: seq<Service>, sent: seq<Notice>, base: nat, n: Native, us: seq<Update>,
                     l: Location, a: Age, k: Text, m: Native, b: Age)
    requires us != [] && Chain(states, sent) && Kept(sent, base, us) && NativeOk(n) && IsMedia(l.interface)
    requires m == ApplyAll(n, us[..|us| - 1]) && b == AgeReplayed(n, us[..|us| - 1], base, l, a)
    requires PresenceSeen(states, sent, base + |us| - 1, l, Cell(m, l), b)
    requires KeySeen(states, sent, base + |us| - 1, l, Cell(m, l), b, k)
    ensures var c', a' := Cell(ApplyAll(n, us), l), AgeReplayed(n, us, base, l, a);
      PresenceSeen(states, sent, base + |us|, l, c', a') && KeySeen(states, sent, base + |us|, l, c', a', k)
  {
    var last, h := us[|us| - 1], base + |us| - 1;
    assert sent[h] == Signal(last);
    assert NativeOk(m) by { ApplyAllGrows(n, us[..|us| - 1]); }
    assert AgeReplayed(n, us, base, l, a) == AgeNext(last, h, l, b, l in m.entries);
    ReplayStep(states, sent, h, base + |us|, l, m, last, b, k);
  }

  lemma {:induction false} ReplayKeyAt(states: seq<Service>, sent: seq<Notice>, base: nat,
                                       n: Native, us: seq<Update>, l: Location, a: Age, k: Text)
    requires Chain(states, sent) && Kept(sent, base, us) && NativeOk(n) && IsMedia(l.interface)
    requires PresenceSeen(states, sent, base, l, Cell(n, l), a) && KeySeen(states, sent, base, l, Cell(n, l), a, k)
    ensures var c', a' := Cell(ApplyAll(n, us), l), AgeReplayed(n, us, base, l, a);
      PresenceSeen(states, sent, base + |us|, l, c', a') && KeySeen(states, sent, base + |us|, l, c', a', k)
  {
    if us != [] {
      var front := us[..|us| - 1];
      ReplayKeyAt(states, sent, base, n, front, l, a, k);
      ReplayLastAt(states, sent, base, n, us, l, a, k, ApplyAll(n, front), AgeReplayed(n, front, base, l, a));
    }
  }

  /** Replaying the signals sent since state `base` onto a value of any age keeps it at its age. */
  lemma ReplayAt(states: seq<Service>, sent: seq<Notice>, base: nat, n: Native, us: seq<Update>, l: Location, a: Age)
    requires Chain(states, sent) && Kept(sent, base, us) && NativeOk(n) && IsMedia(l.interface)
    requires Seen(states, sent, base, l, Cell(n, l), a)
    ensures Seen(states, sent, base + |us|, l, Cell(ApplyAll(n, us), l), AgeReplayed(n, us, base, l, a))
  {
    var h, c', a' := base + |us|, Cell(ApplyAll(n, us), l), AgeReplayed(n, us, base, l, a);
    forall k
      ensures PresenceSeen(states, sent, h, l, c', a') && KeySeen(states, sent, h, l, c', a', k)
    {
      assert KeySeen(states, sent, base, l, Cell(n, l), a, k);
      ReplayKeyAt(states, sent, base, n, us, l, a, k);
    }
    assert KeySeen(states, sent, h, l, c', a', []);
  }

  /** Every key a replay leaves stale, in a location it knows, has been asked for. */
  lemma {:induction false} ReplayAsks(sent: seq<Notice>, base: nat, n: Native, us: seq<Update>, l: Location,
                                      at: nat, k: Text)
    requires Kept(sent, base, us) && base <= at && NativeOk(n) && IsMedia(l.interface)
    requires l in ApplyAll(n, us).entries
    requires StaleKey(sent, base + |us|, l, AgeReplayed(n, us, base, l, Age(at, map[])), k)
    ensures Asked(ApplyAll(n, us).queries, |n.queries|, l)
  {
    if us != [] {
      var last := |us| - 1;
      var u, before := us[last], ApplyAll(n, us[..last]);
      var a := AgeReplayed(n, us[..last], base, l, Age(at, map[]));
      assert sent[base + last] == Signal(u);
      NewlyStale(sent, base + last, l, a, l in before.entries, k);
      ApplyAllGrows(n, us[..last]);
      ApplyAt(before, u, l);
      assert l in before.entries;
      if k in Invalidates(u, l) {
        assert ApplyAll(n, us).queries[|before.queries|].location == l;
      } else {
        ReplayAsks(sent, base, n, us[..last], l, at, k);
        AskedStays(before.queries, ApplyAll(n, us).queries, |n.queries|, l);
      }
    }
  }

  /** A key becomes stale only through the message that invalidates it. */
  lemma NewlyStale(sent: seq<Notice>, h: nat, l: Location, a: Age, known: bool, k: Text)
    requires h < |sent| && sent[h].Signal?
    requires StaleKey(sent, h + 1, l, AgeNext(sent[h].update, h, l, a, known), k)
    ensures !Resets(sent[h].update, l) && (k in Invalidates(sent[h].update, l) || StaleKey(sent, h, l, a, k))
  {
    var a' := AgeNext(sent[h].update, h, l, a, known);
    var i: nat :| KeyAge(a', k) <= i < h + 1 && InvalidatedIn(sent, i, l, k);
    if i < h { assert KeyAge(a, k) <= i; }
  }

  lemma AskedStays(before: seq<Query>, after: seq<Query>, from: nat, l: Location)
    requires Asked(before, from, l) && |before| <= |after| && after[..|before|] == before
    ensures Asked(after, from, l)
  {
    var i :| from <= i < |before| && before[i].location == l;
    assert after[..|before|][i] == before[i];
  }

  // ---------------------------------------------------------------- a log as one operation

  /** What a log of updates makes of the value at `l`. */
  function EffectAll(us: seq<Update>, l: Location, c: Option<Props>): Option<Props> {
    if us == [] then c
    else Effect(us[|us| - 1], l, EffectAll(us[..|us| - 1], l, c))
  }

  predicate ResetsAny(us: seq<Update>, l: Location) {
    exists i :: 0 <= i < |us| && Resets(us[i], l)
  }

  /** The properties a log without resets puts over what is there. */
  function Overrides(us: seq<Update>, l: Location): Props {
    if us == [] then map[]
    else
      var last := us[|us| - 1];
      Overrides(us[..|us| - 1], l) + if ChangedAt(last, l) then last.changed else map[]
  }

  lemma {:induction false} ApplyAllAt(n: Native, us: seq<Update>, l: Location)
    requires NativeOk(n) && IsMedia(l.interface)
    ensures Cell(ApplyAll(n, us), l) == EffectAll(us, l, Cell(n, l))
  {
    if us != [] {
      var front := us[..|us| - 1];
      ApplyAllGrows(n, front);
      ApplyAllAt(n, front, l);
      ApplyAt(ApplyAll(n, front), us[|us| - 1], l);
    }
  }

  /** At each location a log is a constant or one override. */
  lemma {:induction false} LogNormalForm(us: seq<Update>, l: Location, c: Option<Props>, d: Option<Props>)
    ensures if ResetsAny(us, l) then EffectAll(us, l, c) == EffectAll(us, l, d)
            else EffectAll(us, l, c) == if c.None? then None else Some(c.value + Overrides(us, l))
  {
    if us == [] {
      if c.Some? { assert c.value + map[] == c.value; }
    } else {
      var front, last := us[..|us| - 1], us[|us| - 1];
      LogNormalForm(front, l, c, d);
      if !Resets(last, l) {
        if ResetsAny(us, l) {
          var i :| 0 <= i < |us| && Resets(us[i], l);
          assert Resets(front[i], l);
        } else {
          assert forall i | 0 <= i < |front| :: front[i] == us[i];
          LastOverrides(last, l, c, Overrides(front, l));
        }
      } else {
        assert Resets(us[|us| - 1], l);
      }
    }
  }

  lemma LastOverrides(last: Update, l: Location, c: Option<Props>, m: Props)
    requires !Resets(last, l)
    ensures Effect(last, l, if c.None? then None else Some(c.value + m)) ==
      if c.None? then None else Some(c.value + (m + if ChangedAt(last, l) then last.changed else map[]))
  {
    if c.Some? {
      if ChangedAt(last, l) {
        assert c.value + m + last.changed == c.value + (m + last.changed);
      } else {
        assert m + map[] == m;
      }
    }
  }

  /** Replay is harmless: a log applied to a cache that already includes it changes no value. */
  lemma ReplayIsHarmless(n: Native, us: seq<Update>, l: Location)
    requires NativeOk(n) && IsMedia(l.interface)
    ensures Cell(ApplyAll(ApplyAll(n, us), us), l) == Cell(ApplyAll(n, us), l)
  {
    var c := Cell(n, l);
    ApplyAllGrows(n, us);
    ApplyAllAt(n, us, l);
    ApplyAllAt(ApplyAll(n, us), us, l);
    LogNormalForm(us, l, c, EffectAll(us, l, c));
    LogNormalForm(us, l, EffectAll(us, l, c), c);
    if c.Some? {
      var m := Overrides(us, l);
      assert c.value + m + m == c.value + m;
    }
  }

  /** A snapshot of any state at or after `base`, with the log of all later messages replayed over
      it, is the service's last state, except on keys invalidated after the state listed. */
  lemma ReplayOverSnapshot(states: seq<Service>, sent: seq<Notice>, base: nat, at: nat,
                           n: Native, objects: seq<Object>, us: seq<Update>, l: Location)
    requires Chain(states, sent) && Kept(sent, base, us) && base + |us| == |sent|
    requires base <= at < |states| && Lists(objects, states[at])
    requires n.entries == map[] && IsMedia(l.interface)
    ensures var added := AddObjects(n, objects);
      Agree(Cell(ApplyAll(added, us), l), Look(states[|sent|], l),
            StaleKeys(sent, |sent|, l, AgeReplayed(added, us, base, l, Age(at, map[]))))
  {
    var added := AddObjects(n, objects);
    AddObjectsAt(n, objects, l);
    JustSeen(states, sent, base, at, l);
    ReplayAt(states, sent, base, added, us, l, Age(at, map[]));
    SeenAgrees(states, sent, l, Cell(ApplyAll(added, us), l), AgeReplayed(added, us, base, l, Age(at, map[])));
  }
}
