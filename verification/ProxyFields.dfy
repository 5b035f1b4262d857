/** What each proxy announces, field by field: the chains of comparisons in updateProps
    (lib/src/bluez_media_player.dart and its siblings) in their own order, and the proof that walking
    the table of tracked positions in ProxyRefresh comes to the same. */
module ProxyFields {
  import opened WireCodec
  import opened Messages
  import opened ProxyRefresh

  /** The names whose comparison found a difference, in order. */
  function Names(comparisons: seq<(string, bool)>): seq<string> {
    if comparisons == [] then []
    else
      var last := comparisons[|comparisons| - 1];
      Names(comparisons[..|comparisons| - 1]) + if last.1 then [last.0] else []
  }

  /** The comparisons of updateProps for the five kinds of proxy. */
  function Comparisons(a: Message, b: Message): seq<(string, bool)>
    requires KindOf(a) == KindOf(b)
  {
    match a
    case PlayerProps(_, _, _, _, _, _, _, _, _, _, _, _, _, _, _, _) =>
      [("Equalizer", a.equalizer != b.equalizer), ("Status", a.status != b.status),
       ("Position", a.position != b.position), ("Track", a.track != b.track), ("Repeat", a.repeat != b.repeat),
       ("Shuffle", a.shuffle != b.shuffle), ("Scan", a.scan != b.scan), ("Name", a.name != b.name),
       ("Type", a.kind != b.kind), ("Subtype", a.subtype != b.subtype), ("Device", a.device != b.device),
       ("Browsable", a.browsable != b.browsable), ("Searchable", a.searchable != b.searchable),
       ("Playlist", a.playlist != b.playlist), ("ObexPort", a.obexPort != b.obexPort)]
    case ControlProps(_, _, _) => [("Connected", a.connected != b.connected), ("Player", a.player != b.player)]
    case FolderProps(_, _, _) =>
      [("NumberOfItems", a.numberOfItems != b.numberOfItems), ("Name", a.name != b.name)]
    case MediaItem(item) =>
      [("Player", item.player != b.item.player), ("Name", item.name != b.item.name),
       ("Type", item.kind != b.item.kind), ("FolderType", item.folderType != b.item.folderType),
       ("Playable", item.playable != b.item.playable), ("Metadata", item.metadata != b.item.metadata)]
    case TransportProps(_, _, _, _, _, _, _, _, _) =>
      [("Device", a.device != b.device), ("UUID", a.uuid != b.uuid), ("Codec", a.codec != b.codec),
       ("State", a.state != b.state), ("Delay", a.delay != b.delay), ("Volume", a.volume != b.volume),
       ("Configuration", a.configuration != b.configuration), ("Endpoint", a.endpoint != b.endpoint)]
    case _ => []
  }

  /** The table's comparisons of positions. */
  function ByPosition(tracked: Track, v: seq<Value>, w: seq<Value>): seq<(string, bool)>
    requires Within(tracked, |v|) && |v| == |w|
  {
    seq(|tracked|, i requires 0 <= i < |tracked| => (tracked[i].0, v[tracked[i].1] != w[tracked[i].1]))
  }

  lemma {:induction false} ChangedByPosition(tracked: Track, v: seq<Value>, w: seq<Value>)
    requires Within(tracked, |v|) && |v| == |w|
    ensures Changed(tracked, v, w) == Names(ByPosition(tracked, v, w))
  {
    if tracked != [] {
      var front := tracked[..|tracked| - 1];
      ChangedByPosition(front, v, w);
      assert ByPosition(tracked, v, w)[..|tracked| - 1] == ByPosition(front, v, w);
    }
  }

  /** Lists of properties are the same on the wire just when they are equal. */
  lemma PropertyListsDiffer(ps: seq<Property>, qs: seq<Property>)
    ensures PropertyList(ps).value == PropertyList(qs).value <==> ps == qs
  {
    PropertiesComeBack(ps);
    PropertiesComeBack(qs);
  }

  lemma PlayerPositions(a: Message, b: Message)
    requires a.PlayerProps? && b.PlayerProps?
    ensures |Contents(a)| == |Contents(b)| == 16 && Within(Tracked(PlayerKind), 16)
    ensures ByPosition(Tracked(PlayerKind), Contents(a), Contents(b)) == Comparisons(a, b)
  {
    PropertyListsDiffer(a.track, b.track);
    var v, w, t := Contents(a), Contents(b), Tracked(PlayerKind);
    PlayerContents(a);
    PlayerContents(b);
    var c, d := ByPosition(t, v, w), Comparisons(a, b);
    assert |c| == |d| == 15;
    forall i | 0 <= i < 15
      ensures c[i] == d[i]
    {
      PlayerPosition(a, b, i);
    }
  }

  lemma PlayerContents(m: Message)
    requires m.PlayerProps?
    ensures Contents(m) ==
      [Octets(m.objectPath), Octets(m.equalizer), Octets(m.repeat), Octets(m.shuffle), Octets(m.scan),
       Octets(m.status), Number(m.position), PropertyList(m.track).value, Octets(m.device), Octets(m.name),
       Octets(m.kind), Octets(m.subtype), Truth(m.browsable), Truth(m.searchable), Octets(m.playlist),
       Number(m.obexPort)]
  {
  }

  /** One entry of the table compares one field. */
  ghost predicate SamePosition(a: Message, b: Message, i: nat)
    requires KindOf(a) == KindOf(b) && i < |Tracked(KindOf(a))| && i < |Comparisons(a, b)|
    requires Within(Tracked(KindOf(a)), |Contents(a)|) && |Contents(a)| == |Contents(b)|
  {
    var (name, at) := Tracked(KindOf(a))[i];
    (name, Contents(a)[at] != Contents(b)[at]) == Comparisons(a, b)[i]
  }

  lemma PlayerPosition(a: Message, b: Message, i: nat)
    requires a.PlayerProps? && b.PlayerProps? && i < 15
    requires |Contents(a)| == |Contents(b)| == 16 && Within(Tracked(PlayerKind), 16)
    ensures SamePosition(a, b, i)
  {
    if i < 3 {
      PlayerPlaying(a, b, i);
    } else if i < 5 {
      PlayerTrack(a, b, i);
    } else if i < 8 {
      PlayerMode(a, b, i);
    } else if i < 11 {
      PlayerKindAndDevice(a, b, i);
    } else {
      PlayerRest(a, b, i);
    }
  }

  lemma PlayerPlaying(a: Message, b: Message, i: nat)
    requires a.PlayerProps? && b.PlayerProps? && i < 3
    requires |Contents(a)| == |Contents(b)| == 16 && Within(Tracked(PlayerKind), 16)
    ensures SamePosition(a, b, i)
  {
    PlayerContents(a);
    PlayerContents(b);
    assert i == 0 || i == 1 || i == 2;
  }

  lemma PlayerTrack(a: Message, b: Message, i: nat)
    requires a.PlayerProps? && b.PlayerProps? && 3 <= i < 5
    requires |Contents(a)| == |Contents(b)| == 16 && Within(Tracked(PlayerKind), 16)
    ensures SamePosition(a, b, i)
  {
    PlayerContents(a);
    PlayerContents(b);
    PropertyListsDiffer(a.track, b.track);
    assert i == 3 || i == 4;
  }

  lemma PlayerMode(a: Message, b: Message, i: nat)
    requires a.PlayerProps? && b.PlayerProps? && 5 <= i < 8
    requires |Contents(a)| == |Contents(b)| == 16 && Within(Tracked(PlayerKind), 16)
    ensures SamePosition(a, b, i)
  {
    PlayerContents(a);
    PlayerContents(b);
    assert i == 5 || i == 6 || i == 7;
  }

  lemma PlayerKindAndDevice(a: Message, b: Message, i: nat)
    requires a.PlayerProps? && b.PlayerProps? && 8 <= i < 11
    requires |Contents(a)| == |Contents(b)| == 16 && Within(Tracked(PlayerKind), 16)
    ensures SamePosition(a, b, i)
  {
    PlayerContents(a);
    PlayerContents(b);
    assert i == 8 || i == 9 || i == 10;
  }

  lemma PlayerRest(a: Message, b: Message, i: nat)
    requires a.PlayerProps? && b.PlayerProps? && 11 <= i < 15
    requires |Contents(a)| == |Contents(b)| == 16 && Within(Tracked(PlayerKind), 16)
    ensures SamePosition(a, b, i)
  {
    PlayerContents(a);
    PlayerContents(b);
    assert i == 11 || i == 12 || i == 13 || i == 14;
  }

  lemma SmallPositions(a: Message, b: Message)
    requires (a.ControlProps? && b.ControlProps?) || (a.FolderProps? && b.FolderProps?)
    ensures |Contents(a)| == |Contents(b)| && Within(Tracked(KindOf(a)), |Contents(a)|)
    ensures ByPosition(Tracked(KindOf(a)), Contents(a), Contents(b)) == Comparisons(a, b)
  {
  }

  lemma ItemPositions(a: Message, b: Message)
    requires a.MediaItem? && b.MediaItem?
    ensures |Contents(a)| == |Contents(b)| && Within(Tracked(ItemKind), |Contents(a)|)
    ensures ByPosition(Tracked(ItemKind), Contents(a), Contents(b)) == Comparisons(a, b)
  {
    ItemContents(a);
    ItemContents(b);
    PropertyListsDiffer(a.item.metadata, b.item.metadata);
    var c, d := ByPosition(Tracked(ItemKind), Contents(a), Contents(b)), Comparisons(a, b);
    assert c[0] == d[0] && c[1] == d[1] && c[2] == d[2] && c[3] == d[3] && c[4] == d[4] && c[5] == d[5];
  }

  lemma ItemContents(m: Message)
    requires m.MediaItem?
    ensures Contents(m) ==
      [Octets(m.item.objectPath), Octets(m.item.player), Octets(m.item.name), Octets(m.item.kind),
       Octets(m.item.folderType), Truth(m.item.playable), PropertyList(m.item.metadata).value]
  {
  }

  lemma TransportPositions(a: Message, b: Message)
    requires a.TransportProps? && b.TransportProps?
    ensures |Contents(a)| == |Contents(b)| && Within(Tracked(TransportKind), |Contents(a)|)
    ensures ByPosition(Tracked(TransportKind), Contents(a), Contents(b)) == Comparisons(a, b)
  {
    TransportContents(a);
    TransportContents(b);
    var c, d := ByPosition(Tracked(TransportKind), Contents(a), Contents(b)), Comparisons(a, b);
    forall i | 0 <= i < 8
      ensures c[i] == d[i]
    {
      TransportPosition(a, b, i);
    }
  }

  lemma TransportPosition(a: Message, b: Message, i: nat)
    requires a.TransportProps? && b.TransportProps? && i < 8
    requires |Contents(a)| == |Contents(b)| == 9 && Within(Tracked(TransportKind), 9)
    ensures SamePosition(a, b, i)
  {
    if i < 4 { TransportFirst(a, b, i); } else { TransportLast(a, b, i); }
  }

  lemma TransportFirst(a: Message, b: Message, i: nat)
    requires a.TransportProps? && b.TransportProps? && i < 4
    requires |Contents(a)| == |Contents(b)| == 9 && Within(Tracked(TransportKind), 9)
    ensures SamePosition(a, b, i)
  {
    TransportContents(a);
    TransportContents(b);
    assert i == 0 || i == 1 || i == 2 || i == 3;
  }

  lemma TransportLast(a: Message, b: Message, i: nat)
    requires a.TransportProps? && b.TransportProps? && 4 <= i < 8
    requires |Contents(a)| == |Contents(b)| == 9 && Within(Tracked(TransportKind), 9)
    ensures SamePosition(a, b, i)
  {
    TransportContents(a);
    TransportContents(b);
    assert i == 4 || i == 5 || i == 6 || i == 7;
  }

  lemma TransportContents(m: Message)
    requires m.TransportProps?
    ensures Contents(m) ==
      [Octets(m.objectPath), Octets(m.device), Octets(m.uuid), Number(m.codec), Octets(m.configuration),
       Octets(m.state), Number(m.delay), Number(m.volume), Octets(m.endpoint)]
  {
  }

  /** For all five kinds, the announcement is the list of names that the chain of comparisons in the
      source produces, each by the field of that name. */
  lemma AnnouncesItsFields(a: Message, b: Message)
    requires IsProxyKind(KindOf(a)) && KindOf(a) == KindOf(b)
    ensures Announced(a, b) == Names(Comparisons(a, b))
  {
    if a.PlayerProps? {
      PlayerPositions(a, b);
    } else if a.MediaItem? {
      ItemPositions(a, b);
    } else if a.TransportProps? {
      TransportPositions(a, b);
    } else {
      SmallPositions(a, b);
    }
    ChangedByPosition(Tracked(KindOf(a)), Contents(a), Contents(b));
  }
}
