/** The refresh protocol of the five Dart proxies (lib/src/bluez_media_player.dart and its siblings
    for controls, folders, items and transports), which differ only in the fields they track. A
    refresh is a request and, some time later, its reply; meanwhile anything may happen. */
module ProxyRefresh {
  import opened WireCodec
  import opened Messages

  /** The names a proxy of this kind announces, in order, with the position of each field in the
      message's layout. */
  function Tracked(kind: Kind): seq<(string, nat)> {
    match kind
    case PlayerKind =>
      [("Equalizer", 1), ("Status", 5), ("Position", 6), ("Track", 7), ("Repeat", 2), ("Shuffle", 3), ("Scan", 4),
       ("Name", 9), ("Type", 10), ("Subtype", 11), ("Device", 8), ("Browsable", 12), ("Searchable", 13),
       ("Playlist", 14), ("ObexPort", 15)]
    case ControlKind => [("Connected", 1), ("Player", 2)]
    case FolderKind => [("NumberOfItems", 1), ("Name", 2)]
    case ItemKind =>
      [("Player", 1), ("Name", 2), ("Type", 3), ("FolderType", 4), ("Playable", 5), ("Metadata", 6)]
    case TransportKind =>
      [("Device", 1), ("UUID", 2), ("Codec", 3), ("State", 5), ("Delay", 6), ("Volume", 7), ("Configuration", 4),
       ("Endpoint", 8)]
    case _ => []
  }

  predicate IsProxyKind(kind: Kind) {
    kind in {PlayerKind, ControlKind, FolderKind, ItemKind, TransportKind}
  }

  function Contents(m: Message): seq<Value> {
    Values(Fields(m))
  }

  type Track = seq<(string, nat)>

  predicate Within(tracked: Track, size: nat) {
    forall i | 0 <= i < |tracked| :: tracked[i].1 < size
  }

  lemma TrackedWithin(kind: Kind)
    ensures Within(Tracked(kind), |Reads(kind)|)
  {
  }

  lemma LengthsAgree(m: Message)
    ensures |Contents(m)| == |Reads(KindOf(m))|
  {
    LayoutsAgree(m);
  }

  /** The names announced when the values `v` are replaced by `w`. */
  function Changed(tracked: Track, v: seq<Value>, w: seq<Value>): seq<string>
    requires Within(tracked, |v|) && |v| == |w|
  {
    if tracked == [] then []
    else
      var last := tracked[|tracked| - 1];
      Changed(tracked[..|tracked| - 1], v, w) + if w[last.1] != v[last.1] then [last.0] else []
  }

  predicate NamesDiffer(tracked: Track) {
    forall i, j | 0 <= i < j < |tracked| :: tracked[i].0 != tracked[j].0
  }

  lemma TrackedNamesDiffer(kind: Kind)
    ensures NamesDiffer(Tracked(kind))
  {
    if kind == PlayerKind { PlayerNamesDiffer(); }
  }

  lemma PlayerNamesDiffer()
    ensures NamesDiffer(Tracked(PlayerKind))
  {
    var t := Tracked(PlayerKind);
    forall i, j | 0 <= i < j < |t|
      ensures t[i].0 != t[j].0
    {
      assert |t[i].0| != |t[j].0| || t[i].0[0] != t[j].0[0] || t[i].0[1] != t[j].0[1];
    }
  }

  lemma {:induction false} OnlyTrackedNames(tracked: Track, v: seq<Value>, w: seq<Value>, name: string)
    requires Within(tracked, |v|) && |v| == |w| && name in Changed(tracked, v, w)
    ensures exists k :: 0 <= k < |tracked| && tracked[k].0 == name
  {
    var n := |tracked| - 1;
    if name in Changed(tracked[..n], v, w) {
      OnlyTrackedNames(tracked[..n], v, w, name);
      var k :| 0 <= k < n && tracked[..n][k].0 == name;
      assert tracked[k].0 == name;
    } else {
      assert tracked[n].0 == name;
    }
  }

  /** A name is announced just when its field differs. */
  lemma {:induction false} ChangedExactly(tracked: Track, v: seq<Value>, w: seq<Value>, i: nat)
    requires Within(tracked, |v|) && |v| == |w| && NamesDiffer(tracked) && i < |tracked|
    ensures tracked[i].0 in Changed(tracked, v, w) <==> v[tracked[i].1] != w[tracked[i].1]
  {
    var n := |tracked| - 1;
    if i < n {
      ChangedExactly(tracked[..n], v, w, i);
    } else if tracked[n].0 in Changed(tracked[..n], v, w) {
      OnlyTrackedNames(tracked[..n], v, w, tracked[n].0);
    }
  }

  /** Where in the announced order a name stands. */
  function Place(tracked: Track, name: string): nat {
    if tracked == [] then 0
    else if tracked[|tracked| - 1].0 == name then |tracked| - 1
    else Place(tracked[..|tracked| - 1], name)
  }

  /** Names come in the order of the table, none twice. */
  lemma {:induction false} ChangedInOrder(tracked: Track, v: seq<Value>, w: seq<Value>, i: nat, j: nat)
    requires Within(tracked, |v|) && |v| == |w| && NamesDiffer(tracked)
    requires i < j < |Changed(tracked, v, w)|
    ensures var names := Changed(tracked, v, w); Place(tracked, names[i]) < Place(tracked, names[j])
  {
    var n := |tracked| - 1;
    var front, names := tracked[..n], Changed(tracked, v, w);
    assert names[i] == Changed(front, v, w)[i];
    NamesHavePlaces(front, v, w, i);
    PlaceInFront(tracked, names[i], Place(front, names[i]));
    if j < |Changed(front, v, w)| {
      NamesHavePlaces(front, v, w, j);
      PlaceInFront(tracked, names[j], Place(front, names[j]));
      ChangedInOrder(front, v, w, i, j);
    }
  }

  lemma PlaceInFront(tracked: Track, name: string, p: nat)
    requires NamesDiffer(tracked) && p < |tracked| - 1 && tracked[p].0 == name
    ensures Place(tracked, name) == Place(tracked[..|tracked| - 1], name)
  {
  }

  lemma {:induction false} NamesHavePlaces(tracked: Track, v: seq<Value>, w: seq<Value>, i: nat)
    requires Within(tracked, |v|) && |v| == |w| && i < |Changed(tracked, v, w)|
    ensures var p := Place(tracked, Changed(tracked, v, w)[i]);
      p < |tracked| && tracked[p].0 == Changed(tracked, v, w)[i]
  {
    var front := tracked[..|tracked| - 1];
    if i < |Changed(front, v, w)| { NamesHavePlaces(front, v, w, i); }
  }

  predicate Covered(tracked: Track, p: nat) {
    exists i :: 0 <= i < |tracked| && tracked[i].1 == p
  }

  lemma PlayerCovers(p: nat)
    requires 1 <= p < 16
    ensures Covered(Tracked(PlayerKind), p)
  {
    var at := [0, 0, 4, 5, 6, 1, 2, 3, 10, 7, 8, 9, 11, 12, 13, 14];
    assert Tracked(PlayerKind)[at[p]].1 == p;
  }

  lemma TransportCovers(p: nat)
    requires 1 <= p < 9
    ensures Covered(Tracked(TransportKind), p)
  {
    var at := [0, 0, 1, 2, 6, 3, 4, 5, 7];
    assert Tracked(TransportKind)[at[p]].1 == p;
  }

  /** Every field but the object path is tracked. */
  lemma TrackedCovers(kind: Kind, p: nat)
    requires IsProxyKind(kind) && 1 <= p < |Reads(kind)|
    ensures Covered(Tracked(kind), p)
  {
    if kind == PlayerKind {
      PlayerCovers(p);
    } else if kind == TransportKind {
      TransportCovers(p);
    } else {
      assert Tracked(kind)[p - 1].1 == p;
    }
  }

  /** The announcement for one message after another of the same kind. */
  function Announced(a: Message, b: Message): seq<string>
    requires KindOf(a) == KindOf(b)
  {
    LengthsAgree(a);
    LengthsAgree(b);
    TrackedWithin(KindOf(a));
    Changed(Tracked(KindOf(a)), Contents(a), Contents(b))
  }

  predicate SamePath(a: Message, b: Message) {
    Contents(a) != [] && Contents(b) != [] && Contents(a)[0] == Contents(b)[0]
  }

  /** What is announced are the names of the tracked fields that differ, in the table's order. */
  lemma AnnouncedExactly(a: Message, b: Message)
    requires KindOf(a) == KindOf(b)
    ensures var tracked := Tracked(KindOf(a));
      && Within(tracked, |Contents(a)|) && |Contents(a)| == |Contents(b)|
      && (forall i | 0 <= i < |tracked| ::
            tracked[i].0 in Announced(a, b) <==> Contents(a)[tracked[i].1] != Contents(b)[tracked[i].1])
      && (forall name | name in Announced(a, b) ::
            Place(tracked, name) < |tracked| && tracked[Place(tracked, name)].0 == name)
      && (forall i, j | 0 <= i < j < |Announced(a, b)| ::
            Place(tracked, Announced(a, b)[i]) < Place(tracked, Announced(a, b)[j]))
  {
    var tracked, v, w := Tracked(KindOf(a)), Contents(a), Contents(b);
    LengthsAgree(a);
    LengthsAgree(b);
    TrackedWithin(KindOf(a));
    TrackedNamesDiffer(KindOf(a));
    forall i | 0 <= i < |tracked|
      ensures tracked[i].0 in Changed(tracked, v, w) <==> v[tracked[i].1] != w[tracked[i].1]
    {
      ChangedExactly(tracked, v, w, i);
    }
    forall i | 0 <= i < |Changed(tracked, v, w)|
      ensures var name := Changed(tracked, v, w)[i];
        Place(tracked, name) < |tracked| && tracked[Place(tracked, name)].0 == name
    {
      NamesHavePlaces(tracked, v, w, i);
    }
    forall i, j | 0 <= i < j < |Changed(tracked, v, w)|
      ensures Place(tracked, Changed(tracked, v, w)[i]) < Place(tracked, Changed(tracked, v, w)[j])
    {
      ChangedInOrder(tracked, v, w, i, j);
    }
  }

  /** Silence is faithful: two snapshots of one object differ just when something is announced. */
  lemma SilenceMeansEqual(a: Message, b: Message)
    requires IsProxyKind(KindOf(a)) && KindOf(a) == KindOf(b) && SamePath(a, b)
    ensures Announced(a, b) == [] <==> a == b
  {
    var kind := KindOf(a);
    LengthsAgree(a);
    LengthsAgree(b);
    TrackedWithin(kind);
    if Announced(a, b) == [] {
      TrackedNamesDiffer(kind);
      forall p | 1 <= p < |Contents(a)|
        ensures Covered(Tracked(kind), p)
      {
        TrackedCovers(kind, p);
      }
      SilenceCovers(Tracked(kind), Contents(a), Contents(b));
      SameContents(a, b);
    } else if a == b {
      NothingChanged(Tracked(kind), Contents(a));
    }
  }

  lemma SilenceCovers(tracked: Track, v: seq<Value>, w: seq<Value>)
    requires Within(tracked, |v|) && |v| == |w| > 0 && NamesDiffer(tracked) && v[0] == w[0]
    requires forall p | 1 <= p < |v| :: Covered(tracked, p)
    requires Changed(tracked, v, w) == []
    ensures v == w
  {
    forall p | 1 <= p < |v|
      ensures v[p] == w[p]
    {
      assert Covered(tracked, p);
      var i :| 0 <= i < |tracked| && tracked[i].1 == p;
      ChangedExactly(tracked, v, w, i);
    }
  }

  lemma {:induction false} NothingChanged(tracked: Track, v: seq<Value>)
    requires Within(tracked, |v|)
    ensures Changed(tracked, v, v) == []
  {
    if tracked != [] { NothingChanged(tracked[..|tracked| - 1], v); }
  }

  lemma SameContents(a: Message, b: Message)
    requires KindOf(a) == KindOf(b) && Contents(a) == Contents(b)
    ensures a == b
  {
    FieldsComeBack(a);
    FieldsComeBack(b);
  }

  // ---------------------------------------------------------------- the protocol

  /** `shown` lists the snapshots the proxy has had, the default one first; `emitted` is what its
      stream has carried. */
  datatype Proxy = Proxy(revision: nat, disposed: bool, shown: seq<Message>, emitted: seq<seq<string>>)

  predicate WellFormed(p: Proxy, kind: Kind) {
    p.shown != [] && OfKind(p.shown, kind)
  }

  predicate OfKind(ms: seq<Message>, kind: Kind) {
    forall i | 0 <= i < |ms| :: KindOf(ms[i]) == kind
  }

  function Start(first: Message): Proxy {
    Proxy(0, false, [first], [])
  }

  function Current(p: Proxy): Message
    requires p.shown != []
  {
    p.shown[|p.shown| - 1]
  }

  /** updateProps. */
  function Update(p: Proxy, m: Message): Proxy
    requires WellFormed(p, KindOf(m))
  {
    if p.disposed then p
    else
      var changed := Announced(Current(p), m);
      Proxy(p.revision + 1, false, p.shown + [m], if changed == [] then p.emitted else p.emitted + [changed])
  }

  /** The first half of refresh: the new revision is the request's own. */
  function Request(p: Proxy): Proxy {
    p.(revision := p.revision + 1)
  }

  /** The second half, when the request made at `revision` is answered. */
  function Answer(p: Proxy, revision: nat, m: Message): Proxy
    requires WellFormed(p, KindOf(m))
  {
    if revision == p.revision then Update(p, m) else p
  }

  /** Requests that fail are answered by nothing. */
  datatype Action = Requests | Answers(revision: nat, reply: Message) | Updates(props: Message) | Disposes

  predicate Fits(a: Action, kind: Kind) {
    (a.Answers? ==> KindOf(a.reply) == kind) && (a.Updates? ==> KindOf(a.props) == kind)
  }

  function Next(p: Proxy, a: Action): Proxy
    requires a.Answers? ==> WellFormed(p, KindOf(a.reply))
    requires a.Updates? ==> WellFormed(p, KindOf(a.props))
  {
    match a
    case Requests => Request(p)
    case Answers(revision, reply) => Answer(p, revision, reply)
    case Updates(props) => Update(p, props)
    case Disposes => p.(disposed := true)
  }

  /** The step issues a request or shows a snapshot. */
  predicate Newer(p: Proxy, a: Action) {
    match a
    case Requests => true
    case Answers(revision, _) => revision == p.revision && !p.disposed
    case Updates(_) => !p.disposed
    case Disposes => false
  }

  lemma StepRaises(p: Proxy, a: Action, kind: Kind)
    requires WellFormed(p, kind) && Fits(a, kind)
    ensures WellFormed(Next(p, a), kind)
    ensures Next(p, a).revision == p.revision + if Newer(p, a) then 1 else 0
    ensures p.shown <= Next(p, a).shown && p.emitted <= Next(p, a).emitted
    ensures p.disposed ==> Next(p, a) == p.(revision := Next(p, a).revision)
  {
  }

  function After(p: Proxy, actions: seq<Action>, kind: Kind): (r: Proxy)
    requires WellFormed(p, kind) && forall a | a in actions :: Fits(a, kind)
    ensures WellFormed(r, kind)
  {
    if actions == [] then p
    else
      var before := After(p, actions[..|actions| - 1], kind);
      StepRaises(before, actions[|actions| - 1], kind);
      Next(before, actions[|actions| - 1])
  }

  /** Some step of the run issued a request or showed a snapshot. */
  predicate AnyNewer(p: Proxy, actions: seq<Action>, kind: Kind)
    requires WellFormed(p, kind) && forall a | a in actions :: Fits(a, kind)
  {
    actions != [] &&
    var front := actions[..|actions| - 1];
    AnyNewer(p, front, kind) || Newer(After(p, front, kind), actions[|actions| - 1])
  }

  lemma {:induction false} RevisionsCountNewer(p: Proxy, actions: seq<Action>, kind: Kind)
    requires WellFormed(p, kind) && forall a | a in actions :: Fits(a, kind)
    ensures var r := After(p, actions, kind);
      && p.revision <= r.revision && (r.revision == p.revision <==> !AnyNewer(p, actions, kind))
      && p.shown <= r.shown && p.emitted <= r.emitted
      && (p.disposed ==> r == p.(revision := r.revision))
  {
    if actions != [] {
      var front := actions[..|actions| - 1];
      RevisionsCountNewer(p, front, kind);
      StepRaises(After(p, front, kind), actions[|actions| - 1], kind);
    }
  }

  /** A reply is applied just when, since its request, no other request was made and no snapshot was
      shown, and the proxy is not disposed; otherwise it changes nothing at all. */
  lemma ReplyAppliedIffNothingNewer(p: Proxy, actions: seq<Action>, kind: Kind, reply: Message)
    requires WellFormed(p, kind) && KindOf(reply) == kind && forall a | a in actions :: Fits(a, kind)
    ensures var asked := Request(p);
      var now := After(asked, actions, kind);
      Answer(now, asked.revision, reply) ==
        if !AnyNewer(asked, actions, kind) && !now.disposed then Update(now, reply) else now
  {
    RevisionsCountNewer(Request(p), actions, kind);
  }

  /** Nothing changes after dispose: neither the snapshot nor the stream. */
  lemma DisposedIsFinal(p: Proxy, actions: seq<Action>, kind: Kind)
    requires WellFormed(p, kind) && p.disposed && forall a | a in actions :: Fits(a, kind)
    ensures var r := After(p, actions, kind); r.disposed && r.shown == p.shown && r.emitted == p.emitted
  {
    RevisionsCountNewer(p, actions, kind);
  }

  /** The announcements of a list of snapshots, the silent ones left out. */
  function Announcements(shown: seq<Message>, kind: Kind): seq<seq<string>>
    requires OfKind(shown, kind)
  {
    if |shown| < 2 then []
    else
      var n := |shown| - 1;
      var changed := Announced(shown[n - 1], shown[n]);
      Announcements(shown[..n], kind) + if changed == [] then [] else [changed]
  }

  lemma UpdateAnnounces(p: Proxy, m: Message, kind: Kind)
    requires WellFormed(p, kind) && KindOf(m) == kind && p.emitted == Announcements(p.shown, kind)
    ensures WellFormed(Update(p, m), kind) && Update(p, m).emitted == Announcements(Update(p, m).shown, kind)
  {
    if !p.disposed {
      AnnouncementsSnoc(p.shown, m, kind);
    }
  }

  lemma AnnouncementsSnoc(shown: seq<Message>, m: Message, kind: Kind)
    requires shown != [] && OfKind(shown, kind) && KindOf(m) == kind
    ensures OfKind(shown + [m], kind)
    ensures var changed := Announced(shown[|shown| - 1], m);
      Announcements(shown + [m], kind) == if changed == [] then Announcements(shown, kind)
                                          else Announcements(shown, kind) + [changed]
  {
    var more := shown + [m];
    assert more[..|more| - 1] == shown && more[|more| - 1] == m && more[|more| - 2] == shown[|shown| - 1];
    assert Announcements(shown, kind) + [] == Announcements(shown, kind);
  }

  lemma StepAnnounces(p: Proxy, a: Action, kind: Kind)
    requires WellFormed(p, kind) && Fits(a, kind) && p.emitted == Announcements(p.shown, kind)
    ensures WellFormed(Next(p, a), kind) && Next(p, a).emitted == Announcements(Next(p, a).shown, kind)
  {
    match a
    case Updates(props) => UpdateAnnounces(p, props, kind);
    case Answers(revision, reply) => if revision == p.revision { UpdateAnnounces(p, reply, kind); }
    case _ =>
  }

  lemma {:induction false} AnnouncementsSaySomething(shown: seq<Message>, kind: Kind)
    requires OfKind(shown, kind)
    ensures [] !in Announcements(shown, kind)
  {
    if |shown| >= 2 { AnnouncementsSaySomething(shown[..|shown| - 1], kind); }
  }

  /** In every run the stream carries exactly the differences between consecutive snapshots, and never
      an empty list. */
  lemma {:induction false} StreamTellsDifferences(first: Message, actions: seq<Action>)
    requires forall a | a in actions :: Fits(a, KindOf(first))
    ensures var r := After(Start(first), actions, KindOf(first));
      WellFormed(r, KindOf(first)) && r.emitted == Announcements(r.shown, KindOf(first)) && [] !in r.emitted
  {
    AnnouncementsSaySomething(After(Start(first), actions, KindOf(first)).shown, KindOf(first));
    if actions != [] {
      var front, last := actions[..|actions| - 1], actions[|actions| - 1];
      assert last in actions;
      StreamTellsDifferences(first, front);
      StepAnnounces(After(Start(first), front, KindOf(first)), last, KindOf(first));
    }
  }

  /** Of two overlapping refreshes the earlier is never shown, in whichever order they are
      answered and whatever else happens; the later is, unless something newer came or the proxy was
      disposed. */
  lemma EarlierRefreshLoses(p: Proxy, between: seq<Action>, afterwards: seq<Action>, kind: Kind,
                            first: Message, second: Message)
    requires WellFormed(p, kind) && KindOf(first) == kind && KindOf(second) == kind
    requires forall a | a in between + afterwards :: Fits(a, kind)
    ensures var asked := Request(p);
      var askedAgain := Request(After(asked, between, kind));
      var now := After(askedAgain, afterwards, kind);
      && Answer(now, asked.revision, first) == now
      && Answer(now, askedAgain.revision, second) ==
           if !AnyNewer(askedAgain, afterwards, kind) && !now.disposed then Update(now, second) else now
  {
    assert forall a | a in between :: a in between + afterwards;
    assert forall a | a in afterwards :: a in between + afterwards;
    RevisionsCountNewer(Request(p), between, kind);
    RevisionsCountNewer(Request(After(Request(p), between, kind)), afterwards, kind);
  }
}
