/** Runs of the cache protocol: what every reachable state satisfies, convergence once nothing is
    outstanding, replies that are never stale, and draining that ends. */
module CacheRuns {
  import opened Wrappers
  import opened Orders
  import opened Messages
  import opened ObjectCache
  import opened CacheConvergence

  datatype Action =
    /** The service changes and sends a signal, or its owner changes. */
    | Sends(notice: Notice, next: Service)
    /** The cache consumes the next message; `order` is how an owner change empties it. */
    | Consumes(order: seq<Location>)
    /** A GetAll is answered from service state `at`: with the properties, or with an error when
        the service does not export the location there. */
    | Answers(i: nat, at: nat)
    /** A GetAll fails for any other reason, or its call is dropped with the path's proxy. */
    | Fails(i: nat)
    /** A GetManagedObjects call, for the latest owner or an earlier one, is answered from service
        state `at`, or fails. */
    | SnapshotArrives(i: nat, at: nat, objects: seq<Object>)
    | SnapshotFails(i: nat)

  ghost predicate Enabled(s: System, a: Action) {
    match a
    case Sends(m, next) => s.states != [] && Link(s.states[|s.states| - 1], m, next)
    case Consumes(order) =>
      s.head < |s.sent| && (s.sent[s.head].Owner? ==> Enumerates(order, s.native.entries.Keys))
    case Answers(i, at) =>
      i < |s.calls| && s.calls[i].since <= at <= |s.sent| && at < |s.states|
    case Fails(i) => i < |s.calls| && s.head <= |s.sent|
    case SnapshotArrives(i, at, objects) =>
      i < |s.snapshots| && s.head <= |s.sent| && s.snapshots[i].since <= at < |s.states| && Lists(objects, s.states[at])
    case SnapshotFails(i) => i < |s.snapshots| && s.head <= |s.sent|
  }

  /** The call was made at the latest owner change consumed. */
  ghost predicate ForLatest(s: System, c: Listing)
    requires s.head <= |s.sent|
  {
    forall k: nat | c.since <= k < s.head :: !s.sent[k].Owner?
  }

  function NewListings(before: Native, after: Native, since: nat): seq<Listing> {
    if |after.snapshotCalls| < |before.snapshotCalls| then []
    else seq(|after.snapshotCalls| - |before.snapshotCalls|,
             k requires 0 <= k < |after.snapshotCalls| - |before.snapshotCalls| =>
               Listing(after.snapshotCalls[|before.snapshotCalls| + k], since))
  }

  function NewCalls(before: Native, after: Native, since: nat): seq<Call> {
    if |after.queries| < |before.queries| then []
    else seq(|after.queries| - |before.queries|,
             k requires 0 <= k < |after.queries| - |before.queries| => Call(after.queries[|before.queries| + k], since))
  }

  function Without<T>(q: seq<T>, i: nat): seq<T>
    requires i < |q|
  {
    q[..i] + q[i + 1..]
  }

  /** The reply is stored: its location is known at the revision it was asked for. */
  predicate Stores(n: Native, q: Query, reply: Option<Props>) {
    reply.Some? && q.location in n.entries && n.entries[q.location].revision == q.revision
  }

  ghost function Next(s: System, a: Action): System
    requires Enabled(s, a)
  {
    match a
    case Sends(m, next) => s.(states := s.states + [next], sent := s.sent + [m])
    case Consumes(order) =>
      (match s.sent[s.head]
       case Signal(u) => Consumed(s, u)
       case Owner(running) => OwnerChanged(s, running, order))
    case Answers(i, at) => Answered(s, i, at)
    case Fails(i) => Failed(s, i)
    case SnapshotArrives(i, at, objects) => Resynchronized(s, i, at, objects)
    case SnapshotFails(i) =>
      s.(native := Snapshot(s.native, s.snapshots[i].generation, None), snapshots := Without(s.snapshots, i),
         failedAt := if ForLatest(s, s.snapshots[i]) then Some(s.head) else s.failedAt)
  }

  function OwnerChanged(s: System, running: bool, order: seq<Location>): System {
    var native := OwnerChange(s.native, running, order);
    s.(native := native, head := s.head + 1,
       snapshots := s.snapshots + NewListings(s.native, native, s.head + 1),
       age := l => Age(s.head + 1, map[]), tainted := {}, failedAt := None)
  }

  function Consumed(s: System, u: Update): System {
    var native := Receive(s.native, u);
    var calls := s.calls + NewCalls(s.native, native, s.head + 1);
    if s.native.resynchronizing then s.(native := native, head := s.head + 1, calls := calls)
    else
      s.(native := native, head := s.head + 1, calls := calls,
         age := l => AgeNext(u, s.head, l, s.age(l), l in s.native.entries),
         tainted := set l | l in s.tainted && !Resets(u, l))
  }

  /** A stored reply is as old as the state it describes, or as the last message consumed. */
  function Answered(s: System, i: nat, at: nat): System
    requires i < |s.calls| && at < |s.states|
  {
    var q := s.calls[i].query;
    var reply := Look(s.states[at], q.location);
    var native := Reply(s.native, q, reply);
    var calls := Without(s.calls, i) + NewCalls(s.native, native, s.head);
    if Stores(s.native, q, reply) then
      s.(native := native, calls := calls,
         age := l => if l == q.location then Age(if at < s.head then s.head else at, map[]) else s.age(l),
         tainted := s.tainted - {q.location})
    else s.(native := native, calls := calls)
  }

  /** A failed call taints its location if that leaves stale keys nobody asks for. */
  ghost function Failed(s: System, i: nat): System
    requires i < |s.calls| && s.head <= |s.sent|
  {
    var l := s.calls[i].query.location;
    var without := s.(native := Reply(s.native, s.calls[i].query, None), calls := Without(s.calls, i));
    if HasStaleKey(s, l) && !Covered(without, l) then without.(tainted := s.tainted + {l}) else without
  }

  ghost function Resynchronized(s: System, i: nat, at: nat, objects: seq<Object>): System
    requires i < |s.snapshots| && s.head <= |s.sent|
  {
    var c := s.snapshots[i];
    var native := Snapshot(s.native, c.generation, Some(objects));
    var s' := s.(native := native, calls := s.calls + NewCalls(s.native, native, s.head),
                 snapshots := Without(s.snapshots, i));
    if !ForLatest(s, c) then s'
    else
      var added := AddObjects(s.native.(resynchronizing := false, pending := []), objects);
      s'.(age := l => AgeReplayed(added, s.native.pending, c.since, l, Age(at, map[])))
  }

  /** The state once create_context has listed the objects: the matches were installed first, so
      signals sent before and after the listed state may be queued, all unconsumed. */
  ghost predicate Init(s: System) {
    && Chain(s.states, s.sent) && s.head == 0
    && (exists objects :: Lists(objects, s.states[|s.sent|]) && s.native == FirstSnapshot(EMPTY, objects))
    && s.calls == [] && s.snapshots == [] && s.tainted == {} && s.failedAt == None
    && forall l :: s.age(l) == Age(|s.sent|, map[])
  }

  // ---------------------------------------------------------------- the invariant

  ghost predicate ResetsAt(s: System, k: nat, l: Location)
    requires k < |s.sent|
  {
    ResetsIn(s.sent, k, l)
  }

  ghost predicate TouchesAt(s: System, k: nat, l: Location)
    requires k < |s.sent|
  {
    TouchesIn(s.sent, k, l)
  }

  /** What is cached for `k` at `l` is older than its last invalidation. */
  ghost predicate Stale(s: System, l: Location, k: Text)
    requires s.head <= |s.sent|
  {
    l in s.native.entries && StaleKey(s.sent, s.head, l, s.age(l), k)
  }

  ghost predicate HasStaleKey(s: System, l: Location)
    requires s.head <= |s.sent|
  {
    exists k :: Stale(s, l, k)
  }

  /** The latest owner's snapshot failed, and nothing consumed since then adds or removes `l`. */
  ghost predicate Lost(s: System, l: Location)
    requires s.head <= |s.sent|
  {
    s.failedAt.Some? && forall i: nat | s.failedAt.value <= i < s.head :: !ResetsAt(s, i, l)
  }

  /** No message consumed since the first `since` touches `l`. */
  ghost predicate Untouched(s: System, l: Location, since: nat)
    requires s.head <= |s.sent|
  {
    forall k: nat | since <= k < s.head :: !TouchesAt(s, k, l)
  }

  ghost predicate CallOk(s: System, c: Call)
    requires s.head <= |s.sent|
  {
    && c.since <= s.head
    && QueryOk(s.native, c.query)
    && (c.query.location in s.native.entries
        && s.native.entries[c.query.location].revision == c.query.revision
        ==> Untouched(s, c.query.location, c.since))
  }

  /** A message still to be consumed replaces whatever is cached at `l`. */
  ghost predicate Doomed(s: System, l: Location) {
    exists k: nat :: s.head <= k < |s.sent| && ResetsAt(s, k, l)
  }

  /** The outstanding call number `i` asks for `l` as it has been since the call. */
  ghost predicate Pursued(s: System, i: nat, l: Location)
    requires s.head <= |s.sent| && i < |s.calls|
  {
    && s.calls[i].query.location == l
    && forall k: nat | s.calls[i].since <= k < s.head :: !ResetsAt(s, k, l)
  }

  ghost predicate Covered(s: System, l: Location)
    requires s.head <= |s.sent|
  {
    l in s.tainted || Doomed(s, l) || exists i: nat :: i < |s.calls| && Pursued(s, i, l)
  }

  ghost predicate LocationOk(s: System, l: Location)
    requires s.head <= |s.sent| && |s.states| == |s.sent| + 1
  {
    && (if Lost(s, l) then l !in s.native.entries
        else Seen(s.states, s.sent, s.head, l, Cell(s.native, l), s.age(l)))
    && (HasStaleKey(s, l) ==> Covered(s, l))
  }

  ghost predicate Awaiting(s: System, base: nat) {
    s.native.entries == map[] && base + |s.native.pending| == s.head && Kept(s.sent, base, s.native.pending)
  }

  /** A call carries the current generation just when it was made for the latest owner. */
  ghost predicate ListingOk(s: System, c: Listing)
    requires s.head <= |s.sent|
  {
    && 0 < c.since <= s.head && s.sent[c.since - 1] == Owner(true)
    && c.generation <= s.native.generation && c.generation in s.native.snapshotCalls
    && (c.generation == s.native.generation <==> ForLatest(s, c))
  }

  /** The calls made so far carry ever larger generations. */
  predicate Increasing(generations: seq<nat>, last: nat) {
    && (forall i, j | 0 <= i < j < |generations| :: generations[i] < generations[j])
    && (forall i | 0 <= i < |generations| :: generations[i] <= last)
  }

  /** A snapshot is awaited just while the call made for the latest owner is unanswered; it is the
      last one made. */
  ghost predicate SnapshotsOk(s: System)
    requires s.head <= |s.sent|
  {
    && (forall i | 0 <= i < |s.snapshots| :: ListingOk(s, s.snapshots[i]))
    && (forall i, j | 0 <= i < j < |s.snapshots| :: s.snapshots[i].generation < s.snapshots[j].generation)
    && Increasing(s.native.snapshotCalls, s.native.generation)
    && if s.native.resynchronizing then
         && s.native.snapshotCalls != []
         && s.native.snapshotCalls[|s.native.snapshotCalls| - 1] == s.native.generation
         && s.snapshots != [] && s.snapshots[|s.snapshots| - 1].generation == s.native.generation
         && Awaiting(s, s.snapshots[|s.snapshots| - 1].since)
       else
         && s.native.pending == []
         && (forall i | 0 <= i < |s.snapshots| :: s.snapshots[i].generation < s.native.generation)
  }

  ghost predicate Inv(s: System) {
    && Chain(s.states, s.sent) && s.head <= |s.sent|
    && NativeOk(s.native)
    && (forall i | 0 <= i < |s.calls| :: CallOk(s, s.calls[i]))
    && SnapshotsOk(s)
    && (s.failedAt.Some? ==> s.failedAt.value <= s.head && !s.native.resynchronizing)
    && (!s.native.resynchronizing ==> forall l: Location | IsMedia(l.interface) :: LocationOk(s, l))
  }

  lemma InitHolds(s: System)
    requires Init(s)
    ensures Inv(s)
  {
    var objects :| Lists(objects, s.states[|s.sent|]) && s.native == FirstSnapshot(EMPTY, objects);
    AddObjectsAt(EMPTY, objects, Location([], Player));
    forall l: Location | IsMedia(l.interface)
      ensures LocationOk(s, l)
    {
      AddObjectsAt(EMPTY, objects, l);
      JustSeen(s.states, s.sent, 0, |s.sent|, l);
    }
  }

  // ---------------------------------------------------------------- each action keeps it

  /** Sending and replies leave the snapshot calls alone. */
  lemma SnapshotsStay(s: System, s': System)
    requires s.head <= |s.sent| && SnapshotsOk(s)
    requires s'.head == s.head && s.sent <= s'.sent && s'.snapshots == s.snapshots
    requires s'.native == s.native.(entries := s'.native.entries, events := s'.native.events,
                                    queries := s'.native.queries)
    requires s.native.entries == map[] ==> s'.native.entries == map[]
    ensures SnapshotsOk(s')
  {
    forall i | 0 <= i < |s'.snapshots|
      ensures ListingOk(s', s'.snapshots[i])
    {
      ListingStays(s, s', s.snapshots[i]);
    }
  }

  lemma ListingStays(s: System, s': System, c: Listing)
    requires s.head <= |s.sent| && s'.head <= |s'.sent| && s.head <= s'.head && s.sent <= s'.sent
    requires forall k: nat | s.head <= k < s'.head :: !s'.sent[k].Owner?
    requires s'.native.generation == s.native.generation && s'.native.snapshotCalls == s.native.snapshotCalls
    requires ListingOk(s, c)
    ensures ListingOk(s', c)
  {
    assert forall k: nat | k < s.head :: s'.sent[k] == s.sent[k];
  }

  /** The answer to be taken is that of the last call. */
  lemma LatestListing(s: System, i: nat)
    requires s.head <= |s.sent| && SnapshotsOk(s) && i < |s.snapshots|
    ensures ForLatest(s, s.snapshots[i]) <==> s.snapshots[i].generation == s.native.generation
    ensures ForLatest(s, s.snapshots[i]) <==> s.native.resynchronizing && i == |s.snapshots| - 1
  {
    assert ListingOk(s, s.snapshots[i]);
  }

  lemma SnapshotAnswered(s: System, s': System, i: nat)
    requires s.head <= |s.sent| && SnapshotsOk(s) && i < |s.snapshots|
    requires s'.head == s.head && s'.sent == s.sent && s'.snapshots == Without(s.snapshots, i)
    requires s'.native.generation == s.native.generation && s'.native.snapshotCalls == s.native.snapshotCalls
    requires if ForLatest(s, s.snapshots[i]) then !s'.native.resynchronizing && s'.native.pending == []
             else s'.native == s.native
    ensures SnapshotsOk(s')
  {
    LatestListing(s, i);
    forall k | 0 <= k < |s'.snapshots|
      ensures ListingOk(s', s'.snapshots[k])
    {
      ListingStays(s, s', s.snapshots[if k < i then k else k + 1]);
    }
    if !ForLatest(s, s.snapshots[i]) && s.native.resynchronizing {
      assert s'.snapshots[|s'.snapshots| - 1] == s.snapshots[|s.snapshots| - 1];
    }
  }

  lemma SnapshotsConsume(s: System, u: Update)
    requires s.head < |s.sent| && s.sent[s.head] == Signal(u) && NativeOk(s.native) && SnapshotsOk(s)
    ensures SnapshotsOk(Consumed(s, u))
  {
    var s' := Consumed(s, u);
    ApplyAt(s.native, u, Location([], Player));
    forall i | 0 <= i < |s'.snapshots|
      ensures ListingOk(s', s'.snapshots[i])
    {
      ListingStays(s, s', s.snapshots[i]);
    }
  }

  lemma OneListing(n: Native, running: bool, order: seq<Location>, since: nat)
    ensures NewListings(n, OwnerChange(n, running, order), since) ==
      if running then [Listing(n.generation + 1, since)] else []
  {
  }

  lemma OldListings(s: System, s': System)
    requires s.head < |s.sent| && s.sent[s.head].Owner? && SnapshotsOk(s)
    requires s'.head == s.head + 1 && s'.sent == s.sent && s.native.generation < s'.native.generation
    requires forall g | g in s.native.snapshotCalls :: g in s'.native.snapshotCalls
    ensures forall i | 0 <= i < |s.snapshots| ::
              ListingOk(s', s.snapshots[i]) && s.snapshots[i].generation < s'.native.generation
  {
    forall i | 0 <= i < |s.snapshots|
      ensures ListingOk(s', s.snapshots[i]) && s.snapshots[i].generation < s'.native.generation
    {
      assert ListingOk(s, s.snapshots[i]);
      assert s'.sent[s.head].Owner?;
    }
  }

  lemma SnapshotsOwned(s: System, running: bool, order: seq<Location>)
    requires s.head < |s.sent| && s.sent[s.head] == Owner(running) && SnapshotsOk(s)
    ensures SnapshotsOk(OwnerChanged(s, running, order))
  {
    var s' := OwnerChanged(s, running, order);
    OneListing(s.native, running, order, s.head + 1);
    OldListings(s, s');
    if running {
      assert ListingOk(s', s'.snapshots[|s.snapshots|]);
    } else {
      assert s'.snapshots == s.snapshots;
    }
  }

  lemma SendsKeeps(s: System, m: Notice, next: Service)
    requires Inv(s) && Enabled(s, Sends(m, next))
    ensures Inv(Next(s, Sends(m, next)))
  {
    var s' := Next(s, Sends(m, next));
    forall k: nat | k < |s'.sent|
      ensures LinkedAt(s'.states, s'.sent, k)
    {
      if k < |s.sent| { assert LinkedAt(s.states, s.sent, k); }
    }
    forall i | 0 <= i < |s'.calls|
      ensures CallOk(s', s'.calls[i])
    {
      assert CallOk(s, s.calls[i]);
      UntouchedStays(s, s', s.calls[i].query.location, s.calls[i].since);
    }
    SnapshotsStay(s, s');
    if !s.native.resynchronizing {
      forall l: Location | IsMedia(l.interface)
        ensures LocationOk(s', l)
      {
        assert LocationOk(s, l);
        SentLocationOk(s, s', l);
      }
    }
  }

  lemma SentLocationOk(s: System, s': System, l: Location)
    requires Chain(s.states, s.sent) && Chain(s'.states, s'.sent) && s.head <= |s.sent| && LocationOk(s, l)
    requires s.states <= s'.states && s.sent <= s'.sent
    requires s' == s.(states := s'.states, sent := s'.sent)
    ensures LocationOk(s', l)
  {
    assert forall i: nat, k | i < s.head :: InvalidatedIn(s.sent, i, l, k) == InvalidatedIn(s'.sent, i, l, k);
    assert forall i: nat, k | i < s.head :: Spares(s.sent, i, l, k) == Spares(s'.sent, i, l, k);
    assert forall i: nat | i < s.head :: ResetsIn(s.sent, i, l) == ResetsIn(s'.sent, i, l);
    assert Lost(s', l) == Lost(s, l) by {
      assert forall i: nat | i < s.head :: ResetsAt(s, i, l) == ResetsAt(s', i, l);
    }
    forall k
      ensures StaleKey(s'.sent, s.head, l, s.age(l), k) == StaleKey(s.sent, s.head, l, s.age(l), k)
    {
      StaleKeyStays(s.sent, s'.sent, s.head, l, s.age(l), k);
    }
    if !Lost(s, l) {
      var c, a := Cell(s.native, l), s.age(l);
      forall k
        ensures KeySeen(s'.states, s'.sent, s.head, l, c, a, k)
      {
        assert KeySeen(s.states, s.sent, s.head, l, c, a, k);
      }
    }
    if HasStaleKey(s', l) {
      var k :| Stale(s', l, k);
      assert Stale(s, l, k);
      CoveredStays(s, s', l);
    }
  }

  lemma StaleKeyStays(sent: seq<Notice>, more: seq<Notice>, h: nat, l: Location, a: Age, k: Text)
    requires h <= |sent| && sent <= more
    ensures StaleKey(more, h, l, a, k) == StaleKey(sent, h, l, a, k)
  {
    if StaleKey(sent, h, l, a, k) {
      var i: nat :| KeyAge(a, k) <= i < h && InvalidatedIn(sent, i, l, k);
      assert InvalidatedIn(more, i, l, k);
    }
    if StaleKey(more, h, l, a, k) {
      var i: nat :| KeyAge(a, k) <= i < h && InvalidatedIn(more, i, l, k);
      assert InvalidatedIn(sent, i, l, k);
    }
  }

  /** Sending more does not touch what was consumed. */
  lemma UntouchedStays(s: System, s': System, l: Location, since: nat)
    requires s.head <= |s.sent| && s'.head == s.head && s.sent <= s'.sent
    ensures Untouched(s, l, since) ==> Untouched(s', l, since)
  {
    if Untouched(s, l, since) {
      forall k: nat | since <= k < s'.head
        ensures !TouchesAt(s', k, l)
      {
        assert !TouchesAt(s, k, l);
      }
    }
  }

  lemma CoveredStays(s: System, s': System, l: Location)
    requires s.head <= |s.sent| && s'.head == s.head && s.sent <= s'.sent
    requires s'.calls == s.calls && s'.tainted == s.tainted
    requires Covered(s, l)
    ensures Covered(s', l)
  {
    if Doomed(s, l) {
      var k: nat :| s.head <= k < |s.sent| && ResetsAt(s, k, l);
      assert ResetsAt(s', k, l);
    } else if l !in s.tainted {
      var i: nat :| i < |s.calls| && Pursued(s, i, l);
      forall k: nat | s'.calls[i].since <= k < s'.head
        ensures !ResetsAt(s', k, l)
      {
        assert !ResetsAt(s, k, l);
      }
      assert Pursued(s', i, l);
    }
  }

  lemma QueryStays(before: Native, after: Native, q: Query)
    requires Grows(before, after) && QueryOk(before, q)
    ensures QueryOk(after, q)
  {
  }

  lemma NewCallsOk(s: System, s': System)
    requires Grows(s.native, s'.native) && s'.head <= |s'.sent|
    ensures forall c | c in NewCalls(s.native, s'.native, s'.head) :: CallOk(s', c)
  {
    forall c | c in NewCalls(s.native, s'.native, s'.head)
      ensures CallOk(s', c)
    {
      var k :| 0 <= k < |NewCalls(s.native, s'.native, s'.head)| && NewCalls(s.native, s'.native, s'.head)[k] == c;
      assert QueryOk(s'.native, s'.native.queries[|s.native.queries| + k]);
    }
  }

  // A signal consumed directly.

  lemma ConsumedCallOk(s: System, u: Update, c: Call)
    requires s.head < |s.sent| && s.sent[s.head] == Signal(u) && !s.native.resynchronizing
    requires NativeOk(s.native) && CallOk(s, c)
    ensures CallOk(Consumed(s, u), c)
  {
    var s', l := Consumed(s, u), c.query.location;
    ApplyAt(s.native, u, l);
    QueryStays(s.native, s'.native, c.query);
    if l in s'.native.entries && s'.native.entries[l].revision == c.query.revision {
      assert !TouchesAt(s, s.head, l);
      forall k: nat | c.since <= k < s'.head
        ensures !TouchesAt(s', k, l)
      {
        assert !TouchesAt(s, k, l);
      }
    }
  }

  lemma ConsumedLocationOk(s: System, u: Update, l: Location)
    requires Chain(s.states, s.sent) && s.head < |s.sent| && s.sent[s.head] == Signal(u)
    requires s.failedAt.Some? ==> s.failedAt.value <= s.head
    requires NativeOk(s.native) && !s.native.resynchronizing && IsMedia(l.interface) && LocationOk(s, l)
    ensures LocationOk(Consumed(s, u), l)
  {
    ApplyAt(s.native, u, l);
    ConsumedSeen(s, u, l);
    ConsumedStaleCovered(s, u, l);
  }

  lemma ConsumedSeen(s: System, u: Update, l: Location)
    requires Chain(s.states, s.sent) && s.head < |s.sent| && s.sent[s.head] == Signal(u)
    requires s.failedAt.Some? ==> s.failedAt.value <= s.head
    requires NativeOk(s.native) && !s.native.resynchronizing && IsMedia(l.interface) && LocationOk(s, l)
    ensures var s' := Consumed(s, u);
      if Lost(s', l) then l !in s'.native.entries
      else Seen(s'.states, s'.sent, s'.head, l, Cell(s'.native, l), s'.age(l))
  {
    var s' := Consumed(s, u);
    ApplyAt(s.native, u, l);
    assert forall i: nat | i < |s.sent| :: ResetsAt(s', i, l) == ResetsAt(s, i, l);
    if Lost(s, l) {
      if Resets(u, l) {
        assert ResetsAt(s', s.head, l);
        ResetStep(s.states, s.sent, s.head, l, Cell(s.native, l), s.age(l));
      } else {
        assert Cell(s'.native, l) == None;
      }
    } else {
      if s.failedAt.Some? {
        var i: nat :| s.failedAt.value <= i < s.head && ResetsAt(s, i, l);
        assert ResetsAt(s', i, l);
      }
      SeenStep(s.states, s.sent, s.head, l, Cell(s.native, l), s.age(l));
    }
  }

  lemma ConsumedStaleCovered(s: System, u: Update, l: Location)
    requires s.head < |s.sent| && s.sent[s.head] == Signal(u) && !s.native.resynchronizing
    requires NativeOk(s.native) && IsMedia(l.interface)
    requires HasStaleKey(s, l) ==> Covered(s, l)
    ensures HasStaleKey(Consumed(s, u), l) ==> Covered(Consumed(s, u), l)
  {
    var s' := Consumed(s, u);
    if HasStaleKey(s', l) {
      var k :| Stale(s', l, k);
      ApplyAt(s.native, u, l);
      NewlyStale(s.sent, s.head, l, s.age(l), l in s.native.entries, k);
      assert l in s.native.entries;
      if k in Invalidates(u, l) {
        ConsumedPursues(s, u, l);
      } else {
        assert Stale(s, l, k);
        ConsumedCovered(s, u, l);
      }
    }
  }

  lemma ConsumedCovered(s: System, u: Update, l: Location)
    requires s.head < |s.sent| && s.sent[s.head] == Signal(u) && !s.native.resynchronizing
    requires Covered(s, l) && !Resets(u, l)
    ensures Covered(Consumed(s, u), l)
  {
    var s' := Consumed(s, u);
    assert !ResetsAt(s, s.head, l);
    if Doomed(s, l) {
      var k: nat :| s.head <= k < |s.sent| && ResetsAt(s, k, l);
      assert ResetsAt(s', k, l);
    } else if l !in s.tainted {
      var i: nat :| i < |s.calls| && Pursued(s, i, l);
      forall k: nat | s'.calls[i].since <= k < s'.head
        ensures !ResetsAt(s', k, l)
      {
        assert !ResetsAt(s, k, l);
      }
      assert Pursued(s', i, l);
    }
  }

  lemma ConsumedPursues(s: System, u: Update, l: Location)
    requires s.head < |s.sent| && s.sent[s.head] == Signal(u) && !s.native.resynchronizing
    requires ChangedAt(u, l) && l in s.native.entries && Invalidates(u, l) != {}
    ensures Covered(Consumed(s, u), l)
  {
    var s' := Consumed(s, u);
    var i := |s.calls|;
    assert s'.calls[i].query.location == l && s'.calls[i].since == s'.head;
    assert Pursued(s', i, l);
  }

  lemma ConsumesSignalKeeps(s: System, order: seq<Location>)
    requires Inv(s) && Enabled(s, Consumes(order)) && s.sent[s.head].Signal?
    ensures Inv(Next(s, Consumes(order)))
  {
    var u := s.sent[s.head].update;
    var s' := Consumed(s, u);
    SnapshotsConsume(s, u);
    if s.native.resynchronizing {
      forall i | 0 <= i < |s'.calls|
        ensures CallOk(s', s'.calls[i])
      {
        assert CallOk(s, s.calls[i]);
      }
    } else {
      ApplyAt(s.native, u, Location([], Player));
      NewCallsOk(s, s');
      forall i | 0 <= i < |s'.calls|
        ensures CallOk(s', s'.calls[i])
      {
        if i < |s.calls| { ConsumedCallOk(s, u, s.calls[i]); }
      }
      forall l: Location | IsMedia(l.interface)
        ensures LocationOk(s', l)
      {
        ConsumedLocationOk(s, u, l);
      }
    }
  }

  lemma OwnerCallsOk(s: System, running: bool, order: seq<Location>)
    requires s.head < |s.sent| && forall i | 0 <= i < |s.calls| :: CallOk(s, s.calls[i])
    ensures var s' := OwnerChanged(s, running, order); forall i | 0 <= i < |s'.calls| :: CallOk(s', s'.calls[i])
  {
    var s' := OwnerChanged(s, running, order);
    forall i | 0 <= i < |s'.calls|
      ensures CallOk(s', s'.calls[i])
    {
      assert CallOk(s, s.calls[i]);
    }
  }

  /** With its owner the service's objects are gone. */
  lemma LeftLocationOk(s: System, order: seq<Location>, l: Location)
    requires Chain(s.states, s.sent) && s.head < |s.sent| && s.sent[s.head] == Owner(false)
    ensures LocationOk(OwnerChanged(s, false, order), l)
  {
    var s' := OwnerChanged(s, false, order);
    assert LinkedAt(s.states, s.sent, s.head);
    JustSeen(s'.states, s'.sent, s'.head, s'.head, l);
  }

  lemma ConsumesOwnerKeeps(s: System, order: seq<Location>)
    requires Inv(s) && Enabled(s, Consumes(order)) && s.sent[s.head].Owner?
    ensures Inv(Next(s, Consumes(order)))
  {
    var running := s.sent[s.head].running;
    SnapshotsOwned(s, running, order);
    OwnerCallsOk(s, running, order);
    if !running {
      forall l: Location | IsMedia(l.interface)
        ensures LocationOk(OwnerChanged(s, false, order), l)
      {
        LeftLocationOk(s, order, l);
      }
    }
  }

  // A reply.

  /** States apart only by signals that do not touch `l` agree on it. */
  lemma {:induction false} UntouchedSame(s: System, l: Location, lo: nat, hi: nat)
    requires Chain(s.states, s.sent) && lo <= hi <= |s.sent| && IsMedia(l.interface)
    requires forall k: nat | lo <= k < hi :: !TouchesAt(s, k, l)
    ensures Look(s.states[lo], l) == Look(s.states[hi], l)
    decreases hi
  {
    if lo < hi {
      UntouchedSame(s, l, lo, hi - 1);
      assert !TouchesAt(s, hi - 1, l);
      assert LinkedAt(s.states, s.sent, hi - 1);
      var a, b := Look(s.states[hi - 1], l), Look(s.states[hi], l);
      assert LinkAt(s.sent[hi - 1].update, l, a, b);
      SameKeys(a, b);
    }
  }

  lemma SameKeys(a: Option<Props>, b: Option<Props>)
    requires a.Some? == b.Some? && forall k :: Get(a, k) == Get(b, k)
    ensures a == b
  {
    if a.Some? {
      assert forall k :: k in a.value <==> Get(a, k).Some?;
      assert forall k :: k in b.value <==> Get(b, k).Some?;
      assert forall k | k in a.value :: Get(a, k) == Some(a.value[k]) && Get(b, k) == Some(b.value[k]);
      assert a.value == b.value;
    }
  }

  /** A stored reply is what the service had when it answered, which no consumed signal outdates, so
      nothing stale is left. */
  lemma StoredIsFresh(s: System, i: nat, at: nat)
    requires Inv(s) && Enabled(s, Answers(i, at))
    requires var l := s.calls[i].query.location;
      Stores(s.native, s.calls[i].query, Look(s.states[at], l))
    ensures var l := s.calls[i].query.location;
      var s' := Answered(s, i, at);
      && Seen(s'.states, s'.sent, s'.head, l, Cell(s'.native, l), s'.age(l))
      && !HasStaleKey(s', l)
  {
    var c := s.calls[i];
    var l := c.query.location;
    assert CallOk(s, c);
    if at < s.head {
      assert forall k: nat | at <= k < s.head :: !TouchesAt(s, k, l);
      UntouchedSame(s, l, at, s.head);
      JustSeen(s.states, s.sent, s.head, s.head, l);
    } else {
      JustSeen(s.states, s.sent, s.head, at, l);
    }
  }

  lemma WithoutAt<T>(q: seq<T>, i: nat, k: nat)
    requires i < |q| && k < |q| && k != i
    ensures var k' := if k < i then k else k - 1; k' < |Without(q, i)| && Without(q, i)[k'] == q[k]
  {
  }

  /** Answering call `i` does not uncover a location unless that call was what covered it. */
  lemma AnsweredCovered(s: System, i: nat, s': System, l: Location)
    requires s.head <= |s.sent| && i < |s.calls|
    requires s'.head == s.head && s'.sent == s.sent && Without(s.calls, i) <= s'.calls
    requires l in s.tainted ==> l in s'.tainted
    requires Covered(s, l) && (Pursued(s, i, l) ==> Covered(s', l))
    ensures Covered(s', l)
  {
    if Doomed(s, l) {
      var k: nat :| s.head <= k < |s.sent| && ResetsAt(s, k, l);
      assert ResetsAt(s', k, l);
    } else if l !in s.tainted && !Pursued(s, i, l) {
      var k: nat :| k < |s.calls| && Pursued(s, k, l);
      WithoutAt(s.calls, i, k);
      var k' := if k < i then k else k - 1;
      assert s'.calls[k'] == s.calls[k];
      forall m: nat | s'.calls[k'].since <= m < s'.head
        ensures !ResetsAt(s', m, l)
      {
        assert !ResetsAt(s, m, l);
      }
      assert Pursued(s', k', l);
    }
  }

  /** A location that has gone where the answer comes from, yet is still cached, is about to be
      removed or replaced by a message on its way. */
  lemma GoneIsDoomed(s: System, i: nat, at: nat)
    requires Inv(s) && Enabled(s, Answers(i, at)) && !s.native.resynchronizing
    requires Pursued(s, i, s.calls[i].query.location)
    requires var l := s.calls[i].query.location; l in s.native.entries && Look(s.states[at], l).None?
    ensures Doomed(s, s.calls[i].query.location)
  {
    var l := s.calls[i].query.location;
    assert LocationOk(s, l);
    if !Doomed(s, l) {
      forall k: nat | s.head <= k < |s.sent|
        ensures !ResetsIn(s.sent, k, l)
      {
        assert !ResetsAt(s, k, l);
      }
      forall k: nat | s.calls[i].since <= k < s.head
        ensures !ResetsIn(s.sent, k, l)
      {
        assert !ResetsAt(s, k, l);
      }
      SamePresence(s.states, s.sent, l, at, |s.sent|);
      SamePresence(s.states, s.sent, l, s.age(l).base, |s.sent|);
      assert false;
    }
  }

  lemma SamePresence(states: seq<Service>, sent: seq<Notice>, l: Location, at: nat, last: nat)
    requires Chain(states, sent) && at <= last <= |sent| && IsMedia(l.interface)
    requires forall i: nat | at <= i < last :: !ResetsIn(sent, i, l)
    ensures Look(states[at], l).Some? == Look(states[last], l).Some?
  {
    UnresetPresence(states, sent, l, at, last);
  }

  /** Handling a reply leaves the revisions alone, so other calls stay as they were. */
  lemma ReplyCallOk(s: System, q: Query, reply: Option<Props>, s': System, c: Call)
    requires s.head <= |s.sent| && CallOk(s, c)
    requires s'.native == Reply(s.native, q, reply) && s'.head == s.head && s'.sent == s.sent
    ensures CallOk(s', c)
  {
    UntouchedStays(s, s', c.query.location, c.since);
  }

  lemma AnsweredCallsOk(s: System, i: nat, at: nat)
    requires NativeOk(s.native) && s.head <= |s.sent| && i < |s.calls| && at < |s.states|
    requires forall k | 0 <= k < |s.calls| :: CallOk(s, s.calls[k])
    ensures var s' := Answered(s, i, at);
      NativeOk(s'.native) && forall k | 0 <= k < |s'.calls| :: CallOk(s', s'.calls[k])
  {
    var s' := Answered(s, i, at);
    var q := s.calls[i].query;
    var reply := Look(s.states[at], q.location);
    assert CallOk(s, s.calls[i]);
    forall k | 0 <= k < |s'.calls|
      ensures CallOk(s', s'.calls[k])
    {
      if k < |s.calls| - 1 {
        assert s'.calls[k] in s.calls;
        ReplyCallOk(s, q, reply, s', s'.calls[k]);
      } else {
        assert s'.calls[k] == Call(Query(q.location, s.native.entries[q.location].revision), s.head);
      }
    }
  }

  lemma AnsweredLocationOk(s: System, i: nat, at: nat, l: Location)
    requires Inv(s) && Enabled(s, Answers(i, at)) && !s.native.resynchronizing
    requires IsMedia(l.interface)
    ensures LocationOk(Next(s, Answers(i, at)), l)
  {
    var s' := Next(s, Answers(i, at));
    var q := s.calls[i].query;
    var reply := Look(s.states[at], q.location);
    assert LocationOk(s, l);
    if Stores(s.native, q, reply) && l == q.location {
      StoredIsFresh(s, i, at);
      assert !Lost(s', l) by { SameLosses(s, s', l); }
    } else {
      assert Cell(s'.native, l) == Cell(s.native, l) && s'.age(l) == s.age(l);
      SameLosses(s, s', l);
      if HasStaleKey(s', l) {
        var k :| Stale(s', l, k);
        assert Stale(s, l, k);
        AnsweredStaleCovered(s, i, at, l);
      }
    }
  }

  lemma SameLosses(s: System, s': System, l: Location)
    requires s.head <= |s.sent| && s'.head == s.head && s'.sent == s.sent && s'.failedAt == s.failedAt
    ensures Lost(s', l) == Lost(s, l)
  {
    assert forall i: nat | i < |s.sent| :: ResetsAt(s', i, l) == ResetsAt(s, i, l);
  }

  lemma AnsweredStaleCovered(s: System, i: nat, at: nat, l: Location)
    requires Inv(s) && Enabled(s, Answers(i, at)) && !s.native.resynchronizing
    requires Covered(s, l) && l in s.native.entries
    requires l == s.calls[i].query.location ==> !Stores(s.native, s.calls[i].query, Look(s.states[at], l))
    ensures Covered(Answered(s, i, at), l)
  {
    var s' := Answered(s, i, at);
    if Pursued(s, i, l) {
      if Look(s.states[at], l).None? {
        GoneIsDoomed(s, i, at);
        var k: nat :| s.head <= k < |s.sent| && ResetsAt(s, k, l);
        assert ResetsAt(s', k, l);
      } else {
        AskedAgain(s, i, at, l);
      }
    }
    AnsweredCovered(s, i, s', l);
  }

  lemma AskedAgain(s: System, i: nat, at: nat, l: Location)
    requires s.head <= |s.sent| && i < |s.calls| && at < |s.states|
    requires l == s.calls[i].query.location && l in s.native.entries && Look(s.states[at], l).Some?
    requires !Stores(s.native, s.calls[i].query, Look(s.states[at], l))
    ensures Covered(Answered(s, i, at), l)
  {
    var s' := Answered(s, i, at);
    var last := |s'.calls| - 1;
    assert s'.calls[last] == Call(Query(l, s.native.entries[l].revision), s.head);
    assert Pursued(s', last, l);
  }

  lemma AnswersKeeps(s: System, i: nat, at: nat)
    requires Inv(s) && Enabled(s, Answers(i, at))
    ensures Inv(Next(s, Answers(i, at)))
  {
    var s' := Next(s, Answers(i, at));
    AnsweredCallsOk(s, i, at);
    SnapshotsStay(s, s');
    if !s.native.resynchronizing {
      forall l: Location | IsMedia(l.interface)
        ensures LocationOk(s', l)
      {
        AnsweredLocationOk(s, i, at, l);
      }
    }
  }

  lemma FailedCallsOk(s: System, i: nat)
    requires s.head <= |s.sent| && i < |s.calls| && forall k | 0 <= k < |s.calls| :: CallOk(s, s.calls[k])
    ensures var s' := Failed(s, i); s'.native == s.native && forall k | 0 <= k < |s'.calls| :: CallOk(s', s'.calls[k])
  {
    var s' := Failed(s, i);
    forall k | 0 <= k < |s'.calls|
      ensures CallOk(s', s'.calls[k])
    {
      assert s'.calls[k] in s.calls;
      ReplyCallOk(s, s.calls[i].query, None, s', s'.calls[k]);
    }
  }

  lemma FailedLocationOk(s: System, i: nat, l: Location)
    requires s.head <= |s.sent| && |s.states| == |s.sent| + 1 && i < |s.calls| && LocationOk(s, l)
    ensures LocationOk(Failed(s, i), l)
  {
    var s' := Failed(s, i);
    SameLosses(s, s', l);
    if HasStaleKey(s', l) {
      var k :| Stale(s', l, k);
      assert Stale(s, l, k);
      FailedCovered(s, i, l);
    }
  }

  lemma FailsKeeps(s: System, i: nat)
    requires Inv(s) && Enabled(s, Fails(i))
    ensures Inv(Next(s, Fails(i)))
  {
    var s' := Failed(s, i);
    SnapshotsStay(s, s');
    FailedCallsOk(s, i);
    if !s.native.resynchronizing {
      forall l: Location | IsMedia(l.interface)
        ensures LocationOk(s', l)
      {
        assert LocationOk(s, l);
        FailedLocationOk(s, i, l);
      }
    }
  }

  lemma FailedCovered(s: System, i: nat, l: Location)
    requires s.head <= |s.sent| && i < |s.calls| && HasStaleKey(s, l) && Covered(s, l)
    ensures Covered(Failed(s, i), l)
  {
    var s' := Failed(s, i);
    var without := s.(native := Reply(s.native, s.calls[i].query, None), calls := Without(s.calls, i));
    if l == s.calls[i].query.location {
      if Covered(without, l) { CoveredStays(without, s', l); }
    } else {
      AnsweredCovered(s, i, s', l);
    }
  }

  // A snapshot.

  lemma ResynchronizedCallsOk(s: System, i: nat, at: nat, objects: seq<Object>)
    requires Inv(s) && i < |s.snapshots| && ForLatest(s, s.snapshots[i])
    ensures var s' := Resynchronized(s, i, at, objects);
      NativeOk(s'.native) && forall k | 0 <= k < |s'.calls| :: CallOk(s', s'.calls[k])
  {
    var s' := Resynchronized(s, i, at, objects);
    LatestListing(s, i);
    ResynchronizedGrows(s.native, objects);
    NewCallsOk(s.(native := s.native.(resynchronizing := false, pending := [])), s');
    forall k | 0 <= k < |s'.calls|
      ensures CallOk(s', s'.calls[k])
    {
      if k < |s.calls| {
        assert CallOk(s, s.calls[k]);
      }
    }
  }

  lemma ResynchronizedGrows(n: Native, objects: seq<Object>)
    requires NativeOk(n)
    ensures var start := n.(resynchronizing := false, pending := []);
      Grows(start, Snapshot(n, n.generation, Some(objects)))
  {
    var start := n.(resynchronizing := false, pending := []);
    var added := AddObjects(start, objects);
    AddObjectsAt(start, objects, Location([], Player));
    ApplyAllGrows(added, n.pending);
    GrowsTransitively(start, added, ApplyAll(added, n.pending));
  }

  lemma ResynchronizedLocationOk(s: System, i: nat, at: nat, objects: seq<Object>, l: Location)
    requires Inv(s) && Enabled(s, SnapshotArrives(i, at, objects)) && IsMedia(l.interface)
    requires ForLatest(s, s.snapshots[i])
    ensures LocationOk(Resynchronized(s, i, at, objects), l)
  {
    var s' := Resynchronized(s, i, at, objects);
    var start := s.native.(resynchronizing := false, pending := []);
    var added, base := AddObjects(start, objects), s.snapshots[i].since;
    LatestListing(s, i);
    AddObjectsAt(start, objects, l);
    JustSeen(s.states, s.sent, base, at, l);
    ReplayAt(s.states, s.sent, base, added, s.native.pending, l, Age(at, map[]));
    assert Cell(s'.native, l) == Cell(ApplyAll(added, s.native.pending), l);
    if HasStaleKey(s', l) { ResynchronizedCovered(s, i, at, objects, l); }
  }

  lemma ResynchronizedCovered(s: System, i: nat, at: nat, objects: seq<Object>, l: Location)
    requires NativeOk(s.native) && IsMedia(l.interface) && s.head <= |s.sent| && i < |s.snapshots|
    requires var c := s.snapshots[i];
      ForLatest(s, c) && c.generation == s.native.generation && Awaiting(s, c.since) && c.since <= at
    requires HasStaleKey(Resynchronized(s, i, at, objects), l)
    ensures Covered(Resynchronized(s, i, at, objects), l)
  {
    var s', base := Resynchronized(s, i, at, objects), s.snapshots[i].since;
    var start := s.native.(resynchronizing := false, pending := []);
    var k :| Stale(s', l, k);
    AddObjectsAt(start, objects, l);
    ReplayAsks(s.sent, base, AddObjects(start, objects), s.native.pending, l, at, k);
    assert s'.native.queries == ApplyAll(AddObjects(start, objects), s.native.pending).queries;
    NewCallPursues(s, s', l);
  }

  lemma NewCallPursues(s: System, s': System, l: Location)
    requires Asked(s'.native.queries, |s.native.queries|, l) && s'.head <= |s'.sent|
    requires s'.calls == s.calls + NewCalls(s.native, s'.native, s'.head)
    ensures Covered(s', l)
  {
    var i :| |s.native.queries| <= i < |s'.native.queries| && s'.native.queries[i].location == l;
    var c := |s.calls| + (i - |s.native.queries|);
    assert s'.calls[c] == Call(s'.native.queries[i], s'.head);
    assert Pursued(s', c, l);
  }

  /** The answer to a call made for an earlier owner changes nothing but that it is no longer
      outstanding. */
  lemma OldAnswerKeeps(s: System, s': System, i: nat)
    requires Inv(s) && i < |s.snapshots| && !ForLatest(s, s.snapshots[i])
    requires s' == s.(snapshots := Without(s.snapshots, i))
    ensures Inv(s')
  {
    SnapshotAnswered(s, s', i);
    forall k | 0 <= k < |s'.calls|
      ensures CallOk(s', s'.calls[k])
    {
      assert CallOk(s, s.calls[k]);
      UntouchedStays(s, s', s.calls[k].query.location, s.calls[k].since);
    }
    if !s.native.resynchronizing {
      forall l: Location | IsMedia(l.interface)
        ensures LocationOk(s', l)
      {
        assert LocationOk(s, l);
        SameLosses(s, s', l);
        if HasStaleKey(s', l) {
          var k :| Stale(s', l, k);
          assert Stale(s, l, k);
          CoveredStays(s, s', l);
        }
      }
    }
  }

  lemma SnapshotArrivesKeeps(s: System, i: nat, at: nat, objects: seq<Object>)
    requires Inv(s) && Enabled(s, SnapshotArrives(i, at, objects))
    ensures Inv(Next(s, SnapshotArrives(i, at, objects)))
  {
    var s' := Resynchronized(s, i, at, objects);
    LatestListing(s, i);
    if ForLatest(s, s.snapshots[i]) {
      ResynchronizedCallsOk(s, i, at, objects);
      ResynchronizedGrows(s.native, objects);
      SnapshotAnswered(s, s', i);
      forall l: Location | IsMedia(l.interface)
        ensures LocationOk(s', l)
      {
        ResynchronizedLocationOk(s, i, at, objects, l);
      }
    } else {
      assert s'.calls == s.calls;
      OldAnswerKeeps(s, s', i);
    }
  }

  lemma SnapshotFailsKeeps(s: System, i: nat)
    requires Inv(s) && Enabled(s, SnapshotFails(i))
    ensures Inv(Next(s, SnapshotFails(i)))
  {
    var s' := Next(s, SnapshotFails(i));
    LatestListing(s, i);
    if ForLatest(s, s.snapshots[i]) {
      SnapshotAnswered(s, s', i);
      forall k | 0 <= k < |s'.calls|
        ensures CallOk(s', s'.calls[k])
      {
        assert CallOk(s, s.calls[k]);
        UntouchedStays(s, s', s.calls[k].query.location, s.calls[k].since);
      }
    } else {
      OldAnswerKeeps(s, s', i);
    }
  }

  lemma StepKeeps(s: System, a: Action)
    requires Inv(s) && Enabled(s, a)
    ensures Inv(Next(s, a))
  {
    match a
    case Sends(m, next) => SendsKeeps(s, m, next);
    case Consumes(order) =>
      if s.sent[s.head].Signal? { ConsumesSignalKeeps(s, order); } else { ConsumesOwnerKeeps(s, order); }
    case Answers(i, at) => AnswersKeeps(s, i, at);
    case Fails(i) => FailsKeeps(s, i);
    case SnapshotArrives(i, at, objects) => SnapshotArrivesKeeps(s, i, at, objects);
    case SnapshotFails(i) => SnapshotFailsKeeps(s, i);
  }

  // ---------------------------------------------------------------- runs

  ghost predicate Runs(s: System, actions: seq<Action>)
    decreases |actions|
  {
    actions == [] || (Enabled(s, actions[0]) && Runs(Next(s, actions[0]), actions[1..]))
  }

  ghost function After(s: System, actions: seq<Action>): System
    requires Runs(s, actions)
    decreases |actions|
  {
    if actions == [] then s else After(Next(s, actions[0]), actions[1..])
  }

  lemma {:induction false} RunKeeps(s: System, actions: seq<Action>)
    requires Inv(s) && Runs(s, actions)
    ensures Inv(After(s, actions))
    decreases |actions|
  {
    if actions != [] {
      StepKeeps(s, actions[0]);
      RunKeeps(Next(s, actions[0]), actions[1..]);
    }
  }

  /** Everything sent is consumed and every call is answered; a GetManagedObjects call made for an
      earlier owner need not be. */
  ghost predicate Quiet(s: System) {
    s.head == |s.sent| && s.calls == [] && forall i | 0 <= i < |s.snapshots| :: !ForLatest(s, s.snapshots[i])
  }

  lemma QuietIsSynchronized(s: System)
    requires Inv(s) && Quiet(s)
    ensures !s.native.resynchronizing
  {
    if s.native.resynchronizing { LatestListing(s, |s.snapshots| - 1); }
  }

  /** The keys that may differ at `l`. */
  ghost function StaleAt(s: System, l: Location): iset<Text>
    requires s.head <= |s.sent|
  {
    iset k | Stale(s, l, k)
  }

  /** Convergence. From any start, along any run, once everything is consumed and answered the cache
      agrees with the service at `l` off the stale keys, unless the latest owner's snapshot failed
      and nothing since then added or removed `l`; then `l` is not cached. So without stale keys the
      cache is right at `l` exactly if it was not lost, or does not exist. */
  lemma Convergence(start: System, actions: seq<Action>, l: Location)
    requires Init(start) && Runs(start, actions) && Quiet(After(start, actions)) && IsMedia(l.interface)
    ensures var s := After(start, actions);
      && |s.states| == |s.sent| + 1
      && (Lost(s, l) ==> l !in s.native.entries)
      && (!Lost(s, l) ==> Agree(Cell(s.native, l), Look(s.states[|s.sent|], l), StaleAt(s, l)))
      && (!HasStaleKey(s, l) ==>
            (Cell(s.native, l) == Look(s.states[|s.sent|], l) <==> !Lost(s, l) || Look(s.states[|s.sent|], l).None?))
  {
    InitHolds(start);
    RunKeeps(start, actions);
    var s := After(start, actions);
    var c, t := Cell(s.native, l), Look(s.states[|s.sent|], l);
    QuietIsSynchronized(s);
    assert LocationOk(s, l);
    if !Lost(s, l) {
      SeenAgrees(s.states, s.sent, l, c, s.age(l));
      assert Agree(c, t, StaleAt(s, l));
      if !HasStaleKey(s, l) {
        assert forall k :: !Stale(s, l, k);
        SameKeys(c, t);
      }
    }
  }

  /** In a quiet state stale keys are left only where a GetAll failed. */
  lemma StaleMeansTainted(start: System, actions: seq<Action>, l: Location)
    requires Init(start) && Runs(start, actions) && Quiet(After(start, actions)) && IsMedia(l.interface)
    ensures HasStaleKey(After(start, actions), l) ==> l in After(start, actions).tainted
  {
    InitHolds(start);
    RunKeeps(start, actions);
    QuietIsSynchronized(After(start, actions));
    assert LocationOk(After(start, actions), l);
  }

  /** No snapshot of a latest owner fails, and no failing GetAll leaves stale keys that nobody asks for. */
  ghost predicate Faultless(s: System, actions: seq<Action>)
    requires Runs(s, actions)
    decreases |actions|
  {
    actions == [] ||
    (&& (actions[0].SnapshotFails? ==> !ForLatest(s, s.snapshots[actions[0].i]))
     && (actions[0].Fails? ==> Failed(s, actions[0].i).tainted == s.tainted)
     && Faultless(Next(s, actions[0]), actions[1..]))
  }

  /** Without failures nothing is excepted. */
  lemma {:induction false} FaultlessRun(s: System, actions: seq<Action>)
    requires Runs(s, actions) && Faultless(s, actions) && s.failedAt == None && s.tainted == {}
    ensures After(s, actions).failedAt == None && After(s, actions).tainted == {}
    decreases |actions|
  {
    if actions != [] {
      FaultlessRun(Next(s, actions[0]), actions[1..]);
    }
  }

  /** Both exceptions are real. When the GetAll for an invalidated key fails, the cache goes quiet on
      the old value. */
  lemma FailedRefreshKeepsOldValue(path: Text, k: Text, v: Variant, v': Variant)
    requires v != v'
    ensures exists start, actions ::
              Init(start) && Runs(start, actions) && QuietButWrong(After(start, actions), Location(path, Player))
  {
    var l := Location(path, Player);
    var start := StartWith(path, map[k := v]);
    StartIsInit(path, map[k := v]);
    var u := Changed(path, Player, map[], [k]);
    var sends, consumes, fails := Sends(Signal(u), map[l := map[k := v']]), Consumes([]), Fails(0);
    InvalidationLinks(l, k, v, v');
    var s1 := Next(start, sends);
    OldValueStays(s1, l, k, v, v');
    assert Next(s1, consumes) == Consumed(s1, u);
    assert Next(Consumed(s1, u), fails) == Failed(Consumed(s1, u), 0);
    RunOfThree(start, sends, consumes, fails);
  }

  lemma OldValueStays(s: System, l: Location, k: Text, v: Variant, v': Variant)
    requires s.head == 0 && s.sent == [Signal(Changed(l.path, l.interface, map[], [k]))] && !s.native.resynchronizing
    requires s.native.entries == map[l := Entry(map[k := v], 1)] && s.native.nextRevision == 1
    requires s.native.queries == [] && s.calls == [] && s.snapshots == []
    requires |s.states| == 2 && s.states[1] == map[l := map[k := v']] && v != v'
    ensures Enabled(s, Consumes([])) && Enabled(Consumed(s, Changed(l.path, l.interface, map[], [k])), Fails(0))
    ensures QuietButWrong(Failed(Consumed(s, Changed(l.path, l.interface, map[], [k])), 0), l)
  {
    AskedThenFailed(s, l, k, v);
    var s3 := Failed(Consumed(s, Changed(l.path, l.interface, map[], [k])), 0);
    assert Get(Cell(s3.native, l), k) == Some(v) && Get(Look(s3.states[1], l), k) == Some(v');
  }

  lemma AskedThenFailed(s: System, l: Location, k: Text, v: Variant)
    requires s.head == 0 && s.sent == [Signal(Changed(l.path, l.interface, map[], [k]))] && !s.native.resynchronizing
    requires s.native.entries == map[l := Entry(map[k := v], 1)] && s.native.nextRevision == 1
    requires s.native.queries == [] && s.calls == [] && s.snapshots == []
    ensures Enabled(s, Consumes([]))
    ensures var s2 := Consumed(s, Changed(l.path, l.interface, map[], [k]));
      && s2.calls == [Call(Query(l, 2), 1)] && Enabled(s2, Fails(0))
      && Failed(s2, 0).native == s2.native && Failed(s2, 0).calls == []
      && Failed(s2, 0).states == s.states && Failed(s2, 0).sent == s.sent && Failed(s2, 0).head == 1
      && Failed(s2, 0).snapshots == [] && Cell(s2.native, l) == Some(map[k := v])
  {
    InvalidationIsAsked(s.native, l, k, v);
    var s2 := Consumed(s, Changed(l.path, l.interface, map[], [k]));
    assert s2.native == Change(s.native, l, map[], [k]);
    assert s2.calls == [Call(Query(l, 2), 1)];
  }

  lemma InvalidationIsAsked(n: Native, l: Location, k: Text, v: Variant)
    requires n.entries == map[l := Entry(map[k := v], 1)] && n.nextRevision == 1 && n.queries == []
    ensures var after := Change(n, l, map[], [k]);
      after.entries == map[l := Entry(map[k := v], 2)] && after.queries == [Query(l, 2)]
  {
    assert map[k := v] + map[] == map[k := v];
  }

  lemma InvalidationLinks(l: Location, k: Text, v: Variant, v': Variant)
    ensures Link(map[l := map[k := v]], Signal(Changed(l.path, l.interface, map[], [k])), map[l := map[k := v']])
  {
    assert k in Invalidates(Changed(l.path, l.interface, map[], [k]), l);
  }

  /** When a new owner's snapshot fails, the cache goes quiet without its objects. */
  lemma FailedSnapshotLosesObjects(path: Text, props: Props)
    ensures exists start, actions ::
              Init(start) && Runs(start, actions) && QuietButWrong(After(start, actions), Location(path, Player))
  {
    var l := Location(path, Player);
    var service := map[l := props];
    var start := StartWith(path, props);
    StartIsInit(path, props);
    var sends, consumes, fails := Sends(Owner(true), service), Consumes([l]), SnapshotFails(0);
    var s1 := Next(start, sends);
    assert Enumerates([l], s1.native.entries.Keys);
    var s2 := Next(s1, consumes);
    var s3 := Next(s2, fails);
    RunOfThree(start, sends, consumes, fails);
    assert Look(s3.states[1], l) == Some(props);
    assert QuietButWrong(s3, l);
  }

  /** A client that has just listed one player. */
  function StartWith(path: Text, props: Props): System {
    System(FirstSnapshot(EMPTY, [Object(path, [(Player, props)])]), [map[Location(path, Player) := props]], [], 0, [],
           [], l => Age(0, map[]), {}, None)
  }

  lemma StartIsInit(path: Text, props: Props)
    ensures var s := StartWith(path, props);
      && Init(s) && s.native.entries == map[Location(path, Player) := Entry(props, 1)]
      && s.native.nextRevision == 1 && s.native.queries == [] && !s.native.resynchronizing
  {
    OneObjectLists(path, props);
    var s := StartWith(path, props);
    assert Lists([Object(path, [(Player, props)])], s.states[|s.sent|]);
  }

  lemma OneObjectLists(path: Text, props: Props)
    ensures Lists([Object(path, [(Player, props)])], map[Location(path, Player) := props])
    ensures var n := FirstSnapshot(EMPTY, [Object(path, [(Player, props)])]);
      && n.entries == map[Location(path, Player) := Entry(props, 1)]
      && n.nextRevision == 1 && n.queries == [] && !n.resynchronizing
  {
    var objects := [Object(path, [(Player, props)])];
    assert objects[..0] == [] && objects[0].interfaces[..0] == [];
    assert AddObjects(EMPTY, objects[..0]) == EMPTY;
    assert AddObjects(EMPTY, objects) == AddObject(EMPTY, objects[0]);
    assert objects[0].(interfaces := objects[0].interfaces[..0]) == Object(path, []);
    assert AddObject(EMPTY, Object(path, [])) == EMPTY;
    assert AddObject(EMPTY, objects[0]) == AddOne(EMPTY, Location(path, Player), props);
    forall l: Location | IsMedia(l.interface)
      ensures ListedAt(objects, l, None) == Look(map[Location(path, Player) := props], l)
    {
      assert ListedAt(objects[..0], l, None) == None;
      assert LastFor(objects[0].interfaces[..0], l.interface) == None;
    }
  }

  lemma RunOfThree(s: System, a: Action, b: Action, c: Action)
    requires Enabled(s, a) && Enabled(Next(s, a), b) && Enabled(Next(Next(s, a), b), c)
    ensures Runs(s, [a, b, c]) && After(s, [a, b, c]) == Next(Next(Next(s, a), b), c)
  {
    var s1, s2 := Next(s, a), Next(Next(s, a), b);
    assert [a, b, c][1..] == [b, c] && [b, c][1..] == [c] && [c][1..] == [];
    assert Runs(Next(s2, c), []) && After(Next(s2, c), []) == Next(s2, c);
    assert Runs(s2, [c]) && After(s2, [c]) == Next(s2, c);
    assert Runs(s1, [b, c]) && After(s1, [b, c]) == Next(s2, c);
  }

  ghost predicate QuietButWrong(s: System, l: Location) {
    Quiet(s) && |s.sent| < |s.states| && Cell(s.native, l) != Look(s.states[|s.sent|], l)
  }

  /** At any moment a cached key has a value of the service no older than the last consumed signal,
      or has been invalidated and asked for, unless that failed. Nothing is cached that a pending or
      failed snapshot should bring. */
  lemma BoundedDisagreement(start: System, actions: seq<Action>, l: Location, k: Text)
    requires Init(start) && Runs(start, actions) && IsMedia(l.interface)
    ensures Accounted(After(start, actions), l, k)
  {
    InitHolds(start);
    RunKeeps(start, actions);
    var s := After(start, actions);
    if !s.native.resynchronizing {
      assert LocationOk(s, l);
      if !Lost(s, l) && !Stale(s, l, k) {
        var j := NotOlder(s.states, s.sent, s.head, l, Cell(s.native, l), s.age(l), k);
      }
    }
  }

  /** A value that is not stale is one the service has at or after state `h`. */
  lemma NotOlder(states: seq<Service>, sent: seq<Notice>, h: nat, l: Location, c: Option<Props>, a: Age, k: Text)
    returns (j: nat)
    requires Chain(states, sent) && h <= |sent| && IsMedia(l.interface) && Seen(states, sent, h, l, c, a)
    requires c.Some? ==> !StaleKey(sent, h, l, a, k)
    ensures h <= j < |states| && Get(c, k) == Get(Look(states[j], l), k)
  {
    assert KeySeen(states, sent, h, l, c, a, k);
    if c.None? {
      j := if a.base < h then h else a.base;
      if a.base < h { UnresetPresence(states, sent, l, a.base, h); }
    } else if KeyAge(a, k) < h {
      SparedKey(states, sent, l, k, KeyAge(a, k), h);
      j := h;
    } else {
      j := KeyAge(a, k);
    }
  }

  /** What the cache holds for key `k` at `l` is the service's value of the last consumed signal,
      or of a later one, or an invalidated value that is being replaced or could not be. */
  ghost predicate Accounted(s: System, l: Location, k: Text) {
    && s.head <= |s.sent| < |s.states|
    && ((s.native.resynchronizing || Lost(s, l)) ==> l !in s.native.entries)
    && (!s.native.resynchronizing && !Lost(s, l) ==>
          || (exists j :: s.head <= j < |s.states| && Get(Cell(s.native, l), k) == Get(Look(s.states[j], l), k))
          || (Stale(s, l, k) && Covered(s, l)))
  }

  /** No stale overwrite. In every reachable state a reply, however late, is stored only if no
      signal consumed since its call was made touches its location, and it never brings a
      location back. */
  lemma NoStaleOverwrite(start: System, actions: seq<Action>, i: nat, reply: Option<Props>)
    requires Init(start) && Runs(start, actions)
    requires i < |After(start, actions).calls|
    ensures var s := After(start, actions);
      var c := s.calls[i];
      var after := Reply(s.native, c.query, reply);
      && after.entries.Keys == s.native.entries.Keys
      && s.head <= |s.sent|
      && (after.entries != s.native.entries ==>
            Stores(s.native, c.query, reply) && Untouched(s, c.query.location, c.since))
  {
    InitHolds(start);
    RunKeeps(start, actions);
    var s := After(start, actions);
    assert CallOk(s, s.calls[i]);
  }

  // ---------------------------------------------------------------- snapshot calls and their answers

  /** The call made for the latest owner is still unanswered. */
  ghost predicate AwaitsListing(s: System)
    requires s.head <= |s.sent|
  {
    exists i :: 0 <= i < |s.snapshots| && ForLatest(s, s.snapshots[i])
  }

  /** Consuming an owner change makes one GetManagedObjects call if there is a new owner, and none
      otherwise; it carries the new generation, and no other unanswered call does. */
  lemma OwnerChangeAsks(start: System, actions: seq<Action>, order: seq<Location>)
    requires Init(start) && Runs(start, actions) && Enabled(After(start, actions), Consumes(order))
    requires var s := After(start, actions); s.sent[s.head].Owner?
    ensures var s, s' := After(start, actions), Next(After(start, actions), Consumes(order));
      && s'.native.generation > s.native.generation
      && s'.snapshots == s.snapshots + (if s.sent[s.head].running then [Listing(s'.native.generation, s'.head)] else [])
      && (forall i | 0 <= i < |s.snapshots| :: s.snapshots[i].generation < s'.native.generation)
      && s'.native.resynchronizing == s.sent[s.head].running
  {
    InitHolds(start);
    RunKeeps(start, actions);
    var s := After(start, actions);
    OwnerAsks(s, s.sent[s.head].running, order);
  }

  lemma OwnerAsks(s: System, running: bool, order: seq<Location>)
    requires s.head < |s.sent| && s.sent[s.head] == Owner(running) && SnapshotsOk(s)
    ensures var s' := OwnerChanged(s, running, order);
      && s'.native.generation > s.native.generation && s'.native.resynchronizing == running
      && s'.snapshots == s.snapshots + (if running then [Listing(s'.native.generation, s'.head)] else [])
      && (forall i | 0 <= i < |s.snapshots| :: s.snapshots[i].generation < s'.native.generation)
  {
    OneListing(s.native, running, order, s.head + 1);
    OldListings(s, OwnerChanged(s, running, order));
  }

  /** In every reachable state a snapshot is awaited just while the call made at the latest owner
      change is unanswered. Calls carry strictly increasing generations, and that one, the last,
      carries the current one. */
  lemma SnapshotCallsAreMatched(start: System, actions: seq<Action>)
    requires Init(start) && Runs(start, actions)
    ensures var s := After(start, actions);
      && s.head <= |s.sent|
      && (s.native.resynchronizing <==> AwaitsListing(s))
      && Increasing(s.native.snapshotCalls, s.native.generation)
      && (s.native.resynchronizing ==>
            && s.native.snapshotCalls != []
            && s.native.snapshotCalls[|s.native.snapshotCalls| - 1] == s.native.generation)
      && (forall i | 0 <= i < |s.snapshots| ::
            && s.snapshots[i].generation in s.native.snapshotCalls
            && (ForLatest(s, s.snapshots[i]) <==> s.snapshots[i].generation == s.native.generation))
  {
    InitHolds(start);
    RunKeeps(start, actions);
    var s := After(start, actions);
    forall i | 0 <= i < |s.snapshots|
      ensures ListingOk(s, s.snapshots[i])
      ensures ForLatest(s, s.snapshots[i]) ==> s.native.resynchronizing
    {
      LatestListing(s, i);
    }
    if s.native.resynchronizing { LatestListing(s, |s.snapshots| - 1); }
  }

  /** The answer to that call is taken: the cache becomes what is listed with the kept signals played
      over it. An answer to any other changes nothing. */
  lemma LatestListingIsTaken(start: System, actions: seq<Action>, i: nat, at: nat, objects: seq<Object>, l: Location)
    requires Init(start) && Runs(start, actions) && IsMedia(l.interface)
    requires Enabled(After(start, actions), SnapshotArrives(i, at, objects))
    ensures var s := After(start, actions); var n := Next(s, SnapshotArrives(i, at, objects)).native;
      if ForLatest(s, s.snapshots[i]) then
        && Cell(n, l) == EffectAll(s.native.pending, l, Look(s.states[at], l))
        && !n.resynchronizing && n.pending == []
      else n == s.native
  {
    InitHolds(start);
    RunKeeps(start, actions);
    var s := After(start, actions);
    LatestListing(s, i);
    if ForLatest(s, s.snapshots[i]) { ListingReplaces(s.native, objects, s.states[at], l); }
  }

  lemma ListingReplaces(n: Native, objects: seq<Object>, t: Service, l: Location)
    requires NativeOk(n) && n.entries == map[] && IsMedia(l.interface) && Lists(objects, t)
    ensures var n' := Snapshot(n, n.generation, Some(objects));
      && Cell(n', l) == EffectAll(n.pending, l, Look(t, l))
      && !n'.resynchronizing && n'.pending == []
  {
    var cleared := n.(resynchronizing := false, pending := []);
    var added := AddObjects(cleared, objects);
    AddObjectsAt(cleared, objects, l);
    ApplyAllAt(added, n.pending, l);
    ApplyAllGrows(added, n.pending);
  }

  // ---------------------------------------------------------------- draining

  /** How far a call's revision is behind its location, plus one. */
  function Behind(n: Native, q: Query): nat {
    if q.location in n.entries && q.revision <= n.entries[q.location].revision
    then n.entries[q.location].revision - q.revision + 1 else 1
  }

  function Work(n: Native, calls: seq<Call>): nat {
    if calls == [] then 0 else Behind(n, calls[0].query) + Work(n, calls[1..])
  }

  lemma {:induction false} WorkAppend(n: Native, a: seq<Call>, b: seq<Call>)
    ensures Work(n, a + b) == Work(n, a) + Work(n, b)
  {
    if a == [] {
      assert a + b == b;
    } else {
      WorkAppend(n, a[1..], b);
      assert (a + b)[1..] == a[1..] + b;
    }
  }

  lemma {:induction false} WorkSameRevisions(n: Native, n': Native, calls: seq<Call>)
    requires n.entries.Keys == n'.entries.Keys
    requires forall l | l in n.entries :: n.entries[l].revision == n'.entries[l].revision
    ensures Work(n, calls) == Work(n', calls)
  {
    if calls != [] {
      WorkSameRevisions(n, n', calls[1..]);
    }
  }

  /** Replacing call `i` by calls that are less work, with no revision changed, is less work. */
  lemma ReplacedCallReducesWork(n: Native, n': Native, calls: seq<Call>, i: nat, more: seq<Call>)
    requires i < |calls| && Work(n', more) < Behind(n, calls[i].query)
    requires n.entries.Keys == n'.entries.Keys
    requires forall l | l in n.entries :: n.entries[l].revision == n'.entries[l].revision
    ensures Work(n', Without(calls, i) + more) < Work(n, calls)
  {
    var rest := [calls[i]] + calls[i + 1..];
    assert calls == calls[..i] + rest && rest[1..] == calls[i + 1..];
    WorkAppend(n, calls[..i], rest);
    WorkAppend(n, calls[..i], calls[i + 1..]);
    WorkSameRevisions(n, n', Without(calls, i));
    WorkAppend(n', Without(calls, i), more);
  }

  /** What a reply asks for again is less work than its call was. */
  lemma ReaskedIsLessWork(s: System, i: nat, reply: Option<Props>)
    requires s.head <= |s.sent| && i < |s.calls| && CallOk(s, s.calls[i])
    ensures var native := Reply(s.native, s.calls[i].query, reply);
      Work(native, NewCalls(s.native, native, s.head)) < Behind(s.native, s.calls[i].query)
  {
    var native := Reply(s.native, s.calls[i].query, reply);
    var more := NewCalls(s.native, native, s.head);
    if more != [] {
      var l := s.calls[i].query.location;
      assert more == [Call(Query(l, s.native.entries[l].revision), s.head)];
      assert more[1..] == [];
    }
  }

  /** Every answer or failure brings the outstanding work strictly down. */
  lemma ReplyReducesWork(s: System, a: Action)
    requires (a.Answers? || a.Fails?) && Enabled(s, a)
    requires s.head <= |s.sent| && CallOk(s, s.calls[a.i])
    ensures Work(Next(s, a).native, Next(s, a).calls) < Work(s.native, s.calls)
  {
    var i := a.i;
    var l := s.calls[i].query.location;
    var reply := if a.Answers? then Look(s.states[a.at], l) else None;
    var native := Reply(s.native, s.calls[i].query, reply);
    var more := NewCalls(s.native, native, s.head);
    ReaskedIsLessWork(s, i, reply);
    ReplacedCallReducesWork(s.native, native, s.calls, i, more);
    assert Next(s, a).calls == Without(s.calls, i) + more;
  }

  /** Draining ends: while no signal is consumed, re-requests cannot go on for more rounds than the
      outstanding work. */
  lemma {:induction false} DrainingEnds(s: System, actions: seq<Action>)
    requires Inv(s) && Runs(s, actions)
    requires forall a | a in actions :: a.Answers? || a.Fails?
    ensures |actions| <= Work(s.native, s.calls)
    decreases |actions|
  {
    if actions != [] {
      assert CallOk(s, s.calls[actions[0].i]);
      ReplyReducesWork(s, actions[0]);
      StepKeeps(s, actions[0]);
      DrainingEnds(Next(s, actions[0]), actions[1..]);
    }
  }
}
