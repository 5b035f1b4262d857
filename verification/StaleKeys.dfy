/** Why stale keys are the exact exception to convergence: when the cache has gone quiet with a stale
    key, its contents say nothing of the service's value. For every value there is a run that leaves
    the cache just as it is and the service with that value.

    The other run is the given one, told differently: from the last invalidation on, the service has
    the other value. Nothing the cache still holds was read from those states. */
module StaleKeys {
  import opened Wrappers
  import opened Messages
  import opened ObjectCache
  import opened CacheConvergence
  import opened CacheRuns

  /** Key `k` at `l` is to have value `v` in all states after message `j`. */
  datatype Retelling = Retelling(l: Location, k: Text, v: Option<Variant>, j: nat)

  // ---------------------------------------------------------------- the service told differently

  function Put(props: Props, p: Retelling): Props {
    if p.v.Some? then props[p.k := p.v.value] else props - {p.k}
  }

  function Told(t: Service, p: Retelling): Service {
    if p.l in t then t[p.l := Put(t[p.l], p)] else t
  }

  function ToldState(t: Service, i: nat, p: Retelling): Service {
    if i > p.j then Told(t, p) else t
  }

  function ToldAll(states: seq<Service>, p: Retelling): seq<Service> {
    seq(|states|, i requires 0 <= i < |states| => ToldState(states[i], i, p))
  }

  /** Message `j` is the last to speak of `k` at `l`, and invalidates it. */
  ghost predicate LastWord(sent: seq<Notice>, p: Retelling) {
    && p.j < |sent| && IsMedia(p.l.interface) && InvalidatedIn(sent, p.j, p.l, p.k)
    && forall i: nat | p.j < i < |sent| :: Spares(sent, i, p.l, p.k) && !InvalidatedIn(sent, i, p.l, p.k)
  }

  function ToldCell(c: Option<Props>, told: bool, p: Retelling): Option<Props> {
    if told && c.Some? then Some(Put(c.value, p)) else c
  }

  lemma PutGets(c: Option<Props>, p: Retelling, k: Text)
    requires c.Some?
    ensures Get(Some(Put(c.value, p)), k) == if k == p.k then p.v else Get(c, k)
  {
  }

  /** A signal that does not speak of the key is as true when it has another value throughout. */
  lemma SparingLink(u: Update, p: Retelling, a: Option<Props>, b: Option<Props>)
    requires LinkAt(u, p.l, a, b) && !Resets(u, p.l)
    requires ChangedAt(u, p.l) ==> p.k !in u.changed && p.k !in u.invalidated
    ensures LinkAt(u, p.l, ToldCell(a, true, p), ToldCell(b, true, p))
  {
    if a.Some? {
      var a', b' := ToldCell(a, true, p), ToldCell(b, true, p);
      forall k | k !in Invalidates(u, p.l)
        ensures Get(b', k) == Get(Effect(u, p.l, a'), k)
      {
        PutGets(a, p, k);
        PutGets(b, p, k);
        assert Get(b, k) == Get(Effect(u, p.l, a), k);
      }
    }
  }

  /** One that invalidates the key allows any value after it. */
  lemma InvalidatingLink(u: Update, p: Retelling, a: Option<Props>, b: Option<Props>)
    requires LinkAt(u, p.l, a, b) && p.k in Invalidates(u, p.l)
    ensures LinkAt(u, p.l, a, ToldCell(b, true, p))
  {
    forall k | k !in Invalidates(u, p.l)
      ensures Get(ToldCell(b, true, p), k) == Get(b, k)
    {
      if b.Some? { PutGets(b, p, k); }
    }
  }

  /** The signal is as true of the service told differently. */
  lemma ToldLinkAt(sent: seq<Notice>, i: nat, p: Retelling, a: Option<Props>, b: Option<Props>)
    requires LastWord(sent, p) && i < |sent| && sent[i].Signal? && LinkAt(sent[i].update, p.l, a, b)
    ensures LinkAt(sent[i].update, p.l, ToldCell(a, i > p.j, p), ToldCell(b, i + 1 > p.j, p))
  {
    if i == p.j {
      InvalidatingLink(sent[i].update, p, a, b);
    } else if i > p.j {
      assert Spares(sent, i, p.l, p.k) && !InvalidatedIn(sent, i, p.l, p.k);
      SparingLink(sent[i].update, p, a, b);
    }
  }

  lemma ToldChain(states: seq<Service>, sent: seq<Notice>, p: Retelling)
    requires Chain(states, sent) && LastWord(sent, p)
    ensures Chain(ToldAll(states, p), sent)
  {
    var told := ToldAll(states, p);
    forall i: nat | i < |sent|
      ensures LinkedAt(told, sent, i)
    {
      assert LinkedAt(states, sent, i);
      if sent[i].Signal? {
        forall l: Location | IsMedia(l.interface)
          ensures LinkAt(sent[i].update, l, Look(told[i], l), Look(told[i + 1], l))
        {
          assert LinkAt(sent[i].update, l, Look(states[i], l), Look(states[i + 1], l));
          if l == p.l { ToldLinkAt(sent, i, p, Look(states[i], l), Look(states[i + 1], l)); }
        }
      }
    }
  }

  function ToldObject(o: Object, told: bool, p: Retelling): Object {
    if !told || o.path != p.l.path then o
    else
      o.(interfaces := seq(|o.interfaces|, i requires 0 <= i < |o.interfaces| =>
           if o.interfaces[i].0 == p.l.interface then (p.l.interface, Put(o.interfaces[i].1, p)) else o.interfaces[i]))
  }

  function ToldObjects(os: seq<Object>, told: bool, p: Retelling): seq<Object> {
    seq(|os|, i requires 0 <= i < |os| => ToldObject(os[i], told, p))
  }

  lemma {:induction false} ToldLastFor(o: Object, n: nat, told: bool, p: Retelling, i: Interface)
    requires n <= |o.interfaces|
    ensures |ToldObject(o, told, p).interfaces| == |o.interfaces|
    ensures LastFor(ToldObject(o, told, p).interfaces[..n], i) ==
      ToldCell(LastFor(o.interfaces[..n], i), told && Location(o.path, i) == p.l, p)
  {
    if n > 0 {
      ToldLastFor(o, n - 1, told, p, i);
      assert o.interfaces[..n][..n - 1] == o.interfaces[..n - 1];
      var o' := ToldObject(o, told, p);
      assert o'.interfaces[..n][..n - 1] == o'.interfaces[..n - 1];
    }
  }

  lemma ToldAddedAt(o: Object, told: bool, p: Retelling, l: Location)
    ensures AddedAt(ToldObject(o, told, p), l) == ToldCell(AddedAt(o, l), told && l == p.l, p)
  {
    ToldLastFor(o, |o.interfaces|, told, p, l.interface);
    var o' := ToldObject(o, told, p);
    assert o.interfaces[..|o.interfaces|] == o.interfaces && o'.interfaces[..|o'.interfaces|] == o'.interfaces;
  }

  lemma {:induction false} ToldListedAt(os: seq<Object>, told: bool, p: Retelling, l: Location)
    ensures ListedAt(ToldObjects(os, told, p), l, None) == ToldCell(ListedAt(os, l, None), told && l == p.l, p)
  {
    if os != [] {
      var last := |os| - 1;
      ToldListedAt(os[..last], told, p, l);
      ToldAddedAt(os[last], told, p, l);
      assert ToldObjects(os, told, p)[..last] == ToldObjects(os[..last], told, p);
    }
  }

  lemma ToldLists(os: seq<Object>, t: Service, i: nat, p: Retelling)
    requires Lists(os, t)
    ensures Lists(ToldObjects(os, i > p.j, p), ToldState(t, i, p))
  {
    forall l: Location | IsMedia(l.interface)
      ensures ListedAt(ToldObjects(os, i > p.j, p), l, None) == Look(ToldState(t, i, p), l)
    {
      ToldListedAt(os, i > p.j, p, l);
      assert ListedAt(os, l, None) == Look(t, l);
    }
  }

  // ---------------------------------------------------------------- the cache told differently

  function ToldEntries(es: map<Location, Entry>, told: bool, p: Retelling): map<Location, Entry> {
    if told && p.l in es then es[p.l := Entry(Put(es[p.l].props, p), es[p.l].revision)] else es
  }

  /** The same cache, but for the value if it was `told`, and for what has been posted. */
  ghost predicate SameCache(n: Native, n': Native, told: bool, p: Retelling) {
    n' == n.(entries := ToldEntries(n.entries, told, p), events := n'.events)
  }

  lemma AddOneTold(n: Native, n': Native, l: Location, props: Props, props': Props, told: bool, retold: bool,
                   p: Retelling)
    requires SameCache(n, n', told, p)
    requires props' == if retold && l == p.l then Put(props, p) else props
    ensures SameCache(AddOne(n, l, props), AddOne(n', l, props'),
                      if l == p.l && IsMedia(l.interface) then retold else told, p)
  {
    var m, m' := AddOne(n, l, props), AddOne(n', l, props');
    if IsMedia(l.interface) {
      assert m'.entries == ToldEntries(m.entries, if l == p.l then retold else told, p);
    }
  }

  lemma {:induction false} AddObjectTold(n: Native, n': Native, o: Object, told: bool, retold: bool, p: Retelling,
                                         size: nat)
    requires SameCache(n, n', told, p) && IsMedia(p.l.interface) && size <= |o.interfaces|
    ensures var part := o.(interfaces := o.interfaces[..size]);
      SameCache(AddObject(n, part), AddObject(n', ToldObject(part, retold, p)),
                if AddedAt(part, p.l).Some? then retold else told, p)
  {
    var part := o.(interfaces := o.interfaces[..size]);
    var part' := ToldObject(part, retold, p);
    if size > 0 {
      var last := size - 1;
      var front := o.(interfaces := o.interfaces[..last]);
      AddObjectTold(n, n', o, told, retold, p, last);
      assert part.interfaces[..last] == front.interfaces;
      assert part'.interfaces[..last] == ToldObject(front, retold, p).interfaces;
      assert part.(interfaces := part.interfaces[..last]) == front;
      assert part'.(interfaces := part'.interfaces[..last]) == ToldObject(front, retold, p);
      var before := if AddedAt(front, p.l).Some? then retold else told;
      AddOneTold(AddObject(n, front), AddObject(n', ToldObject(front, retold, p)),
                 Location(o.path, part.interfaces[last].0), part.interfaces[last].1, part'.interfaces[last].1,
                 before, retold, p);
    }
  }

  lemma WholeObjectTold(n: Native, n': Native, o: Object, told: bool, retold: bool, p: Retelling)
    requires SameCache(n, n', told, p) && IsMedia(p.l.interface)
    ensures SameCache(AddObject(n, o), AddObject(n', ToldObject(o, retold, p)),
                      if AddedAt(o, p.l).Some? then retold else told, p)
  {
    assert o.interfaces[..|o.interfaces|] == o.interfaces;
    assert o.(interfaces := o.interfaces[..|o.interfaces|]) == o;
    AddObjectTold(n, n', o, told, retold, p, |o.interfaces|);
  }

  lemma {:induction false} AddObjectsTold(n: Native, n': Native, os: seq<Object>, told: bool, p: Retelling)
    requires SameCache(n, n', told, p) && IsMedia(p.l.interface)
    ensures SameCache(AddObjects(n, os), AddObjects(n', ToldObjects(os, told, p)), told, p)
  {
    if os != [] {
      var last := |os| - 1;
      AddObjectsTold(n, n', os[..last], told, p);
      assert ToldObjects(os, told, p)[..last] == ToldObjects(os[..last], told, p);
      WholeObjectTold(AddObjects(n, os[..last]), AddObjects(n', ToldObjects(os[..last], told, p)), os[last],
                      told, told, p);
    }
  }

  lemma {:induction false} RemoveTold(n: Native, n': Native, path: Text, interfaces: seq<Interface>, told: bool,
                                      p: Retelling)
    requires SameCache(n, n', told, p)
    ensures SameCache(RemoveInterfaces(n, path, interfaces), RemoveInterfaces(n', path, interfaces), told, p)
  {
    if interfaces != [] {
      var last := |interfaces| - 1;
      RemoveTold(n, n', path, interfaces[..last], told, p);
      RemoveOneTold(RemoveInterfaces(n, path, interfaces[..last]), RemoveInterfaces(n', path, interfaces[..last]),
                    Location(path, interfaces[last]), told, p);
    }
  }

  lemma RemoveOneTold(n: Native, n': Native, l: Location, told: bool, p: Retelling)
    requires SameCache(n, n', told, p)
    ensures SameCache(RemoveOne(n, l), RemoveOne(n', l), told, p)
  {
    var m, m' := RemoveOne(n, l), RemoveOne(n', l);
    assert m'.entries == ToldEntries(m.entries, told, p);
  }

  lemma MergeTold(props: Props, changed: Props, p: Retelling)
    ensures Put(props, p) + changed == if p.k in changed then props + changed else Put(props + changed, p)
  {
  }

  lemma ChangeTold(n: Native, n': Native, l: Location, changed: Props, invalidated: seq<Text>, told: bool, p: Retelling)
    requires SameCache(n, n', told, p)
    ensures SameCache(Change(n, l, changed, invalidated), Change(n', l, changed, invalidated),
                      told && (l == p.l ==> p.k !in changed), p)
  {
    if l in n.entries {
      var told' := told && (l == p.l ==> p.k !in changed);
      var props, props', revision := n.entries[l].props, n'.entries[l].props, n.nextRevision + 1;
      MergeTold(props, changed, p);
      assert n'.entries[l := Entry(props' + changed, revision)]
          == ToldEntries(n.entries[l := Entry(props + changed, revision)], told', p);
    }
  }

  /** `told` follows the age: the value was read from a state after message `j`. */
  predicate ReadAfter(a: Age, p: Retelling) {
    KeyAge(a, p.k) > p.j
  }

  lemma UnknownTold(n: Native, n': Native, told: bool, told': bool, p: Retelling)
    requires SameCache(n, n', told, p) && p.l !in n.entries
    ensures SameCache(n, n', told', p)
  {
  }

  lemma ApplyTold(sent: seq<Notice>, i: nat, n: Native, n': Native, u: Update, a: Age, p: Retelling)
    requires LastWord(sent, p) && i < |sent| && sent[i] == Signal(u) && SameCache(n, n', ReadAfter(a, p), p)
    ensures SameCache(Apply(n, u), Apply(n', u), ReadAfter(AgeNext(u, i, p.l, a, p.l in n.entries), p), p)
  {
    var told := ReadAfter(a, p);
    var a' := AgeNext(u, i, p.l, a, p.l in n.entries);
    if i > p.j { assert Spares(sent, i, p.l, p.k) && !InvalidatedIn(sent, i, p.l, p.k); }
    match u
    case Added(o) =>
      WholeObjectTold(n, n', o, told, false, p);
      assert ToldObject(o, false, p) == o;
    case Removed(path, interfaces) =>
      RemoveTold(n, n', path, interfaces, told, p);
      if Resets(u, p.l) {
        Gone(n, path, interfaces, p.l);
        UnknownTold(Apply(n, u), Apply(n', u), told, ReadAfter(a', p), p);
      }
    case Changed(path, interface, changed, invalidated) =>
      ChangeTold(n, n', Location(path, interface), changed, invalidated, told, p);
      if p.l !in n.entries {
        UnknownTold(Apply(n, u), Apply(n', u), told && (ChangedAt(u, p.l) ==> p.k !in changed), ReadAfter(a', p), p);
      }
  }

  lemma {:induction false} Gone(n: Native, path: Text, interfaces: seq<Interface>, l: Location)
    requires path == l.path && l.interface in interfaces && IsMedia(l.interface)
    ensures l !in RemoveInterfaces(n, path, interfaces).entries
  {
    var last := |interfaces| - 1;
    if l.interface != interfaces[last] { Gone(n, path, interfaces[..last], l); }
  }

  lemma {:induction false} ReplayTold(sent: seq<Notice>, base: nat, n: Native, n': Native, us: seq<Update>, a: Age,
                                      p: Retelling)
    requires LastWord(sent, p) && Kept(sent, base, us) && SameCache(n, n', ReadAfter(a, p), p)
    ensures SameCache(ApplyAll(n, us), ApplyAll(n', us), ReadAfter(AgeReplayed(n, us, base, p.l, a), p), p)
  {
    if us != [] {
      var last := |us| - 1;
      assert Kept(sent, base, us[..last]) && sent[base + last] == Signal(us[last]);
      ReplayTold(sent, base, n, n', us[..last], a, p);
      ApplyTold(sent, base + last, ApplyAll(n, us[..last]), ApplyAll(n', us[..last]), us[last],
                AgeReplayed(n, us[..last], base, p.l, a), p);
    }
  }

  // ---------------------------------------------------------------- the run told differently

  /** The same system, but for the service's states, the value where it was read from them, and the
      bookkeeping. */
  ghost predicate Twins(s: System, s': System, p: Retelling) {
    && s'.states == ToldAll(s.states, p) && s'.sent == s.sent && s'.head == s.head
    && s'.calls == s.calls && s'.snapshots == s.snapshots
    && SameCache(s.native, s'.native, ReadAfter(s.age(p.l), p), p)
  }

  function ToldAction(s: System, a: Action, p: Retelling): Action {
    match a
    case Sends(m, next) => Sends(m, ToldState(next, |s.states|, p))
    case SnapshotArrives(i, at, objects) => SnapshotArrives(i, at, ToldObjects(objects, at > p.j, p))
    case _ => a
  }

  lemma SendsTold(s: System, s': System, m: Notice, next: Service, p: Retelling,
                  states: seq<Service>, sent: seq<Notice>)
    requires Chain(s.states, s.sent) && Enabled(s, Sends(m, next)) && Twins(s, s', p)
    requires Chain(states, sent) && LastWord(sent, p) && s.states + [next] <= states && s.sent + [m] <= sent
    ensures var a' := ToldAction(s, Sends(m, next), p);
      Enabled(s', a') && Twins(Next(s, Sends(m, next)), Next(s', a'), p)
  {
    var i := |s.sent|;
    ToldChain(states, sent, p);
    assert LinkedAt(ToldAll(states, p), sent, i);
    assert states[i] == s.states[i] && states[i + 1] == next && sent[i] == m;
    assert ToldAll(s.states + [next], p) == ToldAll(s.states, p) + [ToldState(next, |s.states|, p)];
  }

  lemma ConsumesTold(s: System, s': System, order: seq<Location>, p: Retelling, sent: seq<Notice>)
    requires Enabled(s, Consumes(order)) && Twins(s, s', p) && LastWord(sent, p) && s.sent <= sent
    ensures Enabled(s', Consumes(order)) && Twins(Next(s, Consumes(order)), Next(s', Consumes(order)), p)
  {
    assert s'.native.entries.Keys == s.native.entries.Keys;
    assert sent[s.head] == s.sent[s.head];
    if s.sent[s.head].Signal? && !s.native.resynchronizing {
      ApplyTold(sent, s.head, s.native, s'.native, s.sent[s.head].update, s.age(p.l), p);
      var u := s.sent[s.head].update;
      SameCalls(s.native, s'.native, Receive(s.native, u), Receive(s'.native, u), s.head + 1);
    }
  }

  lemma SameCalls(n: Native, n': Native, after: Native, after': Native, since: nat)
    requires n'.queries == n.queries && after'.queries == after.queries
    ensures NewCalls(n', after', since) == NewCalls(n, after, since)
  {
  }

  lemma ReplyTold(n: Native, n': Native, q: Query, reply: Option<Props>, told: bool, after: bool, p: Retelling)
    requires SameCache(n, n', told, p)
    ensures var reply' := ToldCell(reply, after && q.location == p.l, p);
      && SameCache(Reply(n, q, reply), Reply(n', q, reply'),
                   if q.location == p.l && Stores(n, q, reply) then after else told, p)
      && Stores(n', q, reply') == Stores(n, q, reply)
  {
    var reply' := ToldCell(reply, after && q.location == p.l, p);
    var told' := if q.location == p.l && Stores(n, q, reply) then after else told;
    if Stores(n, q, reply) {
      assert n'.entries[q.location := Entry(reply'.value, q.revision)]
          == ToldEntries(n.entries[q.location := Entry(reply.value, q.revision)], told', p);
    }
  }

  /** A stored reply was not read before the last invalidation if that has been consumed. */
  lemma StoredAfter(s: System, i: nat, at: nat, p: Retelling)
    requires Inv(s) && Enabled(s, Answers(i, at)) && p.j < |s.sent| && InvalidatedIn(s.sent, p.j, p.l, p.k)
    requires s.calls[i].query.location == p.l && Stores(s.native, s.calls[i].query, Look(s.states[at], p.l))
    ensures at <= p.j ==> s.head <= p.j
  {
    assert CallOk(s, s.calls[i]);
    assert TouchesAt(s, p.j, p.l);
  }

  lemma AnswersTold(s: System, s': System, i: nat, at: nat, p: Retelling)
    requires i < |s.calls| && at < |s.states| && Twins(s, s', p)
    requires var q := s.calls[i].query;
      q.location == p.l && Stores(s.native, q, Look(s.states[at], p.l)) && at <= p.j ==> s.head <= p.j
    ensures Twins(Answered(s, i, at), Answered(s', i, at), p)
  {
    var q := s.calls[i].query;
    var reply := Look(s.states[at], q.location);
    assert Look(s'.states[at], q.location) == ToldCell(reply, at > p.j && q.location == p.l, p);
    ReplyTold(s.native, s'.native, q, reply, ReadAfter(s.age(p.l), p), at > p.j, p);
    SameCalls(s.native, s'.native, Answered(s, i, at).native, Answered(s', i, at).native, s.head);
  }

  lemma FailuresTold(s: System, s': System, a: Action, p: Retelling)
    requires Enabled(s, a) && Twins(s, s', p) && s.head <= |s.sent|
    requires a.Fails? || a.SnapshotFails?
    ensures Enabled(s', a) && Twins(Next(s, a), Next(s', a), p)
  {
  }

  lemma SnapshotTold(s: System, s': System, i: nat, at: nat, objects: seq<Object>, p: Retelling, sent: seq<Notice>)
    requires Inv(s) && Enabled(s, SnapshotArrives(i, at, objects)) && Twins(s, s', p)
    requires LastWord(sent, p) && s.sent <= sent
    ensures var a, a' := SnapshotArrives(i, at, objects), SnapshotArrives(i, at, ToldObjects(objects, at > p.j, p));
      Enabled(s', a') && Twins(Next(s, a), Next(s', a'), p)
  {
    var objects' := ToldObjects(objects, at > p.j, p);
    ToldLists(objects, s.states[at], at, p);
    LatestListing(s, i);
    if ForLatest(s, s.snapshots[i]) { LatestSnapshotTold(s, s', i, at, objects, p, sent); }
  }

  lemma LatestSnapshotTold(s: System, s': System, i: nat, at: nat, objects: seq<Object>, p: Retelling,
                           sent: seq<Notice>)
    requires Inv(s) && i < |s.snapshots| && ForLatest(s, s.snapshots[i]) && Twins(s, s', p)
    requires LastWord(sent, p) && s.sent <= sent
    ensures Twins(Resynchronized(s, i, at, objects),
                  Resynchronized(s', i, at, ToldObjects(objects, at > p.j, p)), p)
  {
    LatestListing(s, i);
    var objects', base := ToldObjects(objects, at > p.j, p), s.snapshots[i].since;
    var n := s.native.(resynchronizing := false, pending := []);
    var n' := s'.native.(resynchronizing := false, pending := []);
    assert SameCache(n, n', at > p.j, p);
    AddObjectsTold(n, n', objects, at > p.j, p);
    assert Kept(sent, base, s.native.pending);
    ReplayTold(sent, base, AddObjects(n, objects), AddObjects(n', objects'), s.native.pending, Age(at, map[]), p);
    SameCalls(s.native, s'.native, Resynchronized(s, i, at, objects).native,
              Resynchronized(s', i, at, objects').native, s.head);
  }

  /** Each step of the run has its twin. */
  lemma StepTold(s: System, s': System, a: Action, p: Retelling, states: seq<Service>, sent: seq<Notice>)
    requires Inv(s) && Enabled(s, a) && Twins(s, s', p)
    requires Chain(states, sent) && LastWord(sent, p) && Next(s, a).states <= states && Next(s, a).sent <= sent
    ensures var a' := ToldAction(s, a, p); Enabled(s', a') && Twins(Next(s, a), Next(s', a'), p)
  {
    match a
    case Sends(m, next) => SendsTold(s, s', m, next, p, states, sent);
    case Consumes(order) =>
      assert Next(s, a).sent == s.sent;
      ConsumesTold(s, s', order, p, sent);
    case Answers(i, at) =>
      var q := s.calls[i].query;
      if q.location == p.l && Stores(s.native, q, Look(s.states[at], p.l)) && p.j < |s.sent| {
        assert InvalidatedIn(sent, p.j, p.l, p.k);
        StoredAfter(s, i, at, p);
      }
      AnswersTold(s, s', i, at, p);
    case SnapshotArrives(i, at, objects) => SnapshotTold(s, s', i, at, objects, p, sent);
    case _ => FailuresTold(s, s', a, p);
  }

  ghost function ToldRun(s: System, actions: seq<Action>, p: Retelling): seq<Action>
    requires Runs(s, actions)
    decreases |actions|
  {
    if actions == [] then [] else [ToldAction(s, actions[0], p)] + ToldRun(Next(s, actions[0]), actions[1..], p)
  }

  lemma {:induction false} HistoryGrows(s: System, actions: seq<Action>)
    requires Runs(s, actions)
    ensures s.states <= After(s, actions).states && s.sent <= After(s, actions).sent
    decreases |actions|
  {
    if actions != [] { HistoryGrows(Next(s, actions[0]), actions[1..]); }
  }

  lemma {:induction false} RunTold(s: System, s': System, actions: seq<Action>, p: Retelling)
    requires Inv(s) && Runs(s, actions) && Twins(s, s', p) && LastWord(After(s, actions).sent, p)
    ensures Runs(s', ToldRun(s, actions, p)) && Twins(After(s, actions), After(s', ToldRun(s, actions, p)), p)
    decreases |actions|
  {
    if actions != [] {
      var a, end := actions[0], After(s, actions);
      RunKeeps(s, actions);
      HistoryGrows(Next(s, a), actions[1..]);
      StepTold(s, s', a, p, end.states, end.sent);
      StepKeeps(s, a);
      RunTold(Next(s, a), Next(s', ToldAction(s, a, p)), actions[1..], p);
      assert ToldRun(s, actions, p)[1..] == ToldRun(Next(s, a), actions[1..], p);
    }
  }

  /** The start told differently. */
  lemma StartTold(s: System, p: Retelling, sent: seq<Notice>)
    returns (s': System)
    requires Init(s) && LastWord(sent, p) && s.sent <= sent
    requires Chain(ToldAll(s.states, p), s.sent)
    ensures Init(s') && Twins(s, s', p) && s'.sent == s.sent
  {
    var objects :| Lists(objects, s.states[|s.sent|]) && s.native == FirstSnapshot(EMPTY, objects);
    var told := |s.sent| > p.j;
    var objects' := ToldObjects(objects, told, p);
    ToldLists(objects, s.states[|s.sent|], |s.sent|, p);
    AddObjectsTold(EMPTY, EMPTY, objects, told, p);
    s' := s.(native := FirstSnapshot(EMPTY, objects'), states := ToldAll(s.states, p));
    assert Lists(objects', s'.states[|s'.sent|]);
  }

  /** The last message to speak of a stale key, once all are consumed. */
  lemma LastWordExists(s: System, l: Location, k: Text, v: Option<Variant>) returns (p: Retelling)
    requires Inv(s) && Quiet(s) && !s.native.resynchronizing && IsMedia(l.interface) && Stale(s, l, k)
    ensures p.l == l && p.k == k && p.v == v && LastWord(s.sent, p)
    ensures !ReadAfter(s.age(l), p) && Look(s.states[|s.sent|], l).Some?
  {
    assert LocationOk(s, l);
    var a := s.age(l);
    assert KeySeen(s.states, s.sent, s.head, l, Cell(s.native, l), a, k);
    var j: nat :| KeyAge(a, k) <= j < s.head && InvalidatedIn(s.sent, j, l, k);
    var i := j + 1;
    while i < |s.sent|
      invariant KeyAge(a, k) <= j < i <= |s.sent| && InvalidatedIn(s.sent, j, l, k)
      invariant forall m: nat | j < m < i :: !InvalidatedIn(s.sent, m, l, k)
    {
      if InvalidatedIn(s.sent, i, l, k) { j := i; }
      i := i + 1;
    }
    p := Retelling(l, k, v, j);
    UnresetPresence(s.states, s.sent, l, a.base, |s.sent|);
  }

  /** The exact exception. If a run ends quiet with `k` stale at `l`, then for every value, or none,
      some run ends quiet after the same messages, with the cache the same in all but what it has
      posted, and with that value in the service. So the cache is sure to be right at `k` just when
      `k` is not stale. */
  lemma StaleKeyTellsNothing(start: System, actions: seq<Action>, l: Location, k: Text, v: Option<Variant>)
    requires Init(start) && Runs(start, actions) && Quiet(After(start, actions)) && IsMedia(l.interface)
    requires Stale(After(start, actions), l, k)
    ensures exists start', actions' ::
              && Init(start') && Runs(start', actions')
              && EndsAlike(After(start, actions), After(start', actions'), l, k, v)
  {
    InitHolds(start);
    RunKeeps(start, actions);
    var s := After(start, actions);
    QuietIsSynchronized(s);
    var p := LastWordExists(s, l, k, v);
    HistoryGrows(start, actions);
    ToldChain(s.states, s.sent, p);
    ChainPrefix(ToldAll(s.states, p), s.sent, ToldAll(start.states, p), start.sent);
    var start' := StartTold(start, p, s.sent);
    RunTold(start, start', actions, p);
    TwinsEndAlike(s, After(start', ToldRun(start, actions, p)), p);
  }

  lemma ChainPrefix(states: seq<Service>, sent: seq<Notice>, states': seq<Service>, sent': seq<Notice>)
    requires Chain(states, sent) && states' <= states && sent' <= sent && |states'| == |sent'| + 1
    ensures Chain(states', sent')
  {
    forall k: nat | k < |sent'|
      ensures LinkedAt(states', sent', k)
    {
      assert LinkedAt(states, sent, k);
    }
  }

  lemma TwinsEndAlike(s: System, s': System, p: Retelling)
    requires Twins(s, s', p) && Quiet(s) && !ReadAfter(s.age(p.l), p)
    requires |s.states| == |s.sent| + 1 && p.j < |s.sent| && Look(s.states[|s.sent|], p.l).Some?
    ensures EndsAlike(s, s', p.l, p.k, p.v)
  {
    PutGets(Look(s.states[|s.sent|], p.l), p, p.k);
  }

  /** Both quiet, with equal caches, and in the second the service has `v` for `k` at `l`. */
  ghost predicate EndsAlike(s: System, s': System, l: Location, k: Text, v: Option<Variant>) {
    && Quiet(s') && s'.sent == s.sent && |s'.sent| < |s'.states|
    && s'.native == s.native.(events := s'.native.events)
    && Get(Look(s'.states[|s'.sent|], l), k) == v
  }
}
