/** The Dart mirror of the cache (lib/src/bluez_media_client.dart): five proxy maps rebuilt from
    the bytes the native side posts, and the proof that they always show the native cache.

    How an interface's properties become a message is left abstract (`Projection`); that the
    message then travels through the wire format is not. */
module ObjectMirror {
  import opened Wrappers
  import opened Orders
  import opened WireCodec
  import opened Messages
  import opened ObjectCache
  import opened CacheConvergence
  import opened CacheRuns

  /** encode_properties and its siblings, before glz::encode. */
  type Projection = (Location, Props) -> Message

  // ---------------------------------------------------------------- the posted bytes

  function Ascii(s: string): Text {
    seq(|s|, i requires 0 <= i < |s| => s[i] as int % 256)
  }

  const PLAYER_NAME := Ascii("org.bluez.MediaPlayer1")
  const CONTROL_NAME := Ascii("org.bluez.MediaControl1")
  const TRANSPORT_NAME := Ascii("org.bluez.MediaTransport1")
  const FOLDER_NAME := Ascii("org.bluez.MediaFolder1")
  const ITEM_NAME := Ascii("org.bluez.MediaItem1")

  function WireName(i: Interface): Text {
    match i
    case Player => PLAYER_NAME
    case Control => CONTROL_NAME
    case Transport => TRANSPORT_NAME
    case Folder => FOLDER_NAME
    case Item => ITEM_NAME
    case Other(name) => name
  }

  function ParseName(t: Text): Interface {
    if t == PLAYER_NAME then Player
    else if t == CONTROL_NAME then Control
    else if t == FOLDER_NAME then Folder
    else if t == ITEM_NAME then Item
    else if t == TRANSPORT_NAME then Transport
    else Other(t)
  }

  lemma NameRoundTrip(i: Interface)
    requires IsMedia(i)
    ensures ParseName(WireName(i)) == i && |WireName(i)| < 32
  {
    assert |PLAYER_NAME| == 22 && |CONTROL_NAME| == 23 && |TRANSPORT_NAME| == 25 && |ITEM_NAME| == 20;
    assert PLAYER_NAME[15] != FOLDER_NAME[15];
  }

  function KindFor(i: Interface): Kind
    requires IsMedia(i)
  {
    match i
    case Player => PlayerKind
    case Control => ControlKind
    case Transport => TransportKind
    case Folder => FolderKind
    case Item => ItemKind
  }

  function TagFor(i: Interface): byte
    requires IsMedia(i)
  {
    match i
    case Player => 0x01
    case Control => 0x02
    case Transport => 0x04
    case Folder => 0x05
    case Item => 0x06
  }

  const READY_TAG: byte := 0x00
  const LOST_TAG: byte := 0x30
  const BACK_TAG: byte := 0x31
  const REMOVED_TAG: byte := 0x7E

  function PathOf(m: Message): Text {
    match m
    case MediaItem(item) => item.objectPath
    case AcquireResult(path, _, _, _) => path
    case ManagedObjects(_, _, _, _, _, _) => []
    case _ => m.objectPath
  }

  /** The projection sends each media interface its own message, about its own path. */
  ghost predicate Projects(project: Projection) {
    forall l: Location, props: Props | IsMedia(l.interface) ::
      KindOf(project(l, props)) == KindFor(l.interface) && PathOf(project(l, props)) == l.path
  }

  /** A message with nothing but its path. */
  function Blank(l: Location): Message {
    match l.interface
    case Player => PlayerProps(l.path, [], [], [], [], [], 0, [], [], [], [], [], false, false, [], 0)
    case Control => ControlProps(l.path, false, [])
    case Transport => TransportProps(l.path, [], [], 0, [], [], 0, 0, [])
    case Folder => FolderProps(l.path, 0, [])
    case Item => MediaItem(ItemProps(l.path, [], [], [], [], false, []))
    case Other(name) => ObjectRemoved(l.path, name)
  }

  /** There is such a projection. */
  lemma ProjectionExists()
    ensures exists project: Projection :: Projects(project)
  {
    var project: Projection := (l, props) => Blank(l);
    assert Projects(project);
  }

  function RemovedMessage(l: Location): Message {
    ObjectRemoved(l.path, WireName(l.interface))
  }

  /** The bytes posted for an event; only media interfaces have any. */
  function Wire(project: Projection, e: Event): seq<byte> {
    match e
    case Posted(l, props) =>
      if IsMedia(l.interface) then [TagFor(l.interface)] + EncodeMessage(project(l, props)) else []
    case Dropped(l) => if IsMedia(l.interface) then [REMOVED_TAG] + EncodeMessage(RemovedMessage(l)) else []
    case SnapshotDone => [READY_TAG]
    case ServiceLost => [LOST_TAG]
    case ServiceReady => [BACK_TAG]
  }

  // ---------------------------------------------------------------- the client

  datatype Announcement = Appeared(location: Location) | Vanished(location: Location) | Availability(up: bool)

  datatype Mirror = Mirror(
    players: map<Text, Message>,
    controls: map<Text, Message>,
    folders: map<Text, Message>,
    items: map<Text, Message>,
    transports: map<Text, Message>,
    available: bool,
    ready: bool,
    announced: seq<Announcement>)

  const FRESH := Mirror(map[], map[], map[], map[], map[], true, false, [])

  function Proxies(m: Mirror, i: Interface): map<Text, Message> {
    match i
    case Player => m.players
    case Control => m.controls
    case Folder => m.folders
    case Item => m.items
    case Transport => m.transports
    case Other(_) => map[]
  }

  function WithProxies(m: Mirror, i: Interface, proxies: map<Text, Message>): Mirror {
    match i
    case Player => m.(players := proxies)
    case Control => m.(controls := proxies)
    case Folder => m.(folders := proxies)
    case Item => m.(items := proxies)
    case Transport => m.(transports := proxies)
    case Other(_) => m
  }

  function Shown(m: Mirror, l: Location): Option<Message> {
    if l.path in Proxies(m, l.interface) then Some(Proxies(m, l.interface)[l.path]) else None
  }

  /** A properties event: the proxy is made if missing, updated, and announced if new. */
  function ShowProps(m: Mirror, i: Interface, message: seq<byte>): Mirror
    requires IsMedia(i)
  {
    var props := DecodeMessage(KindFor(i), message, 1);
    if props.None? then m
    else
      var path := PathOf(props.value.value);
      WithProxies(m, i, Proxies(m, i)[path := props.value.value])
        .(announced := m.announced + if path in Proxies(m, i) then [] else [Appeared(Location(path, i))])
  }

  function HideProxy(m: Mirror, l: Location): Mirror {
    if l.path !in Proxies(m, l.interface) then m
    else
      WithProxies(m, l.interface, Proxies(m, l.interface) - {l.path})
        .(announced := m.announced + [Vanished(l)])
  }

  predicate IsFlagTag(tag: byte) {
    tag == LOST_TAG || tag == BACK_TAG || tag == READY_TAG
  }

  /** The service came or went, or the first snapshot is complete. */
  function SetFlag(m: Mirror, tag: byte): Mirror
    requires IsFlagTag(tag)
  {
    if tag == READY_TAG then m.(ready := true)
    else if m.available == (tag == BACK_TAG) then m
    else m.(available := tag == BACK_TAG, announced := m.announced + [Availability(tag == BACK_TAG)])
  }

  /** _onEvent on an open client; a message that does not decode changes nothing. */
  function Dispatch(m: Mirror, message: seq<byte>): Mirror {
    if message == [] then m
    else
      var tag := message[0];
      if IsFlagTag(tag) then SetFlag(m, tag)
      else if tag == 0x01 then ShowProps(m, Player, message)
      else if tag == 0x02 then ShowProps(m, Control, message)
      else if tag == 0x04 then ShowProps(m, Transport, message)
      else if tag == 0x05 then ShowProps(m, Folder, message)
      else if tag == 0x06 then ShowProps(m, Item, message)
      else if tag == REMOVED_TAG then
        var removed := DecodeMessage(RemovedKind, message, 1);
        if removed.None? then m
        else
          assert removed.value.value.ObjectRemoved?;
          HideProxy(m, Location(removed.value.value.objectPath, ParseName(removed.value.value.interfaceName)))
      else m
  }

  function Replayed(project: Projection, events: seq<Event>): Mirror {
    if events == [] then FRESH
    else Dispatch(Replayed(project, events[..|events| - 1]), Wire(project, events[|events| - 1]))
  }

  // ---------------------------------------------------------------- the mirror shows the cache

  lemma TaggedRoundTrip(tag: byte, message: Message)
    requires ShortMessage(message)
    ensures DecodeMessage(KindOf(message), [tag] + EncodeMessage(message), 1)
         == Some(Decoded(message, 1 + |EncodeMessage(message)|))
  {
    MessageRoundTrip(message, [tag] + EncodeMessage(message), 1);
  }

  lemma UpdateShows(m: Mirror, i: Interface, message: seq<byte>, props: Message, next: nat, k: Location)
    requires IsMedia(i) && DecodeMessage(KindFor(i), message, 1) == Some(Decoded(props, next)) && IsMedia(k.interface)
    ensures Shown(ShowProps(m, i, message), k) == if k == Location(PathOf(props), i) then Some(props) else Shown(m, k)
    ensures ShowProps(m, i, message).available == m.available
  {
    ProxiesWith(m, i, Proxies(m, i)[PathOf(props) := props], ShowProps(m, i, message).announced, k.interface);
  }

  lemma ProxiesWith(m: Mirror, i: Interface, proxies: map<Text, Message>, announced: seq<Announcement>, k: Interface)
    requires IsMedia(i) && IsMedia(k)
    ensures Proxies(WithProxies(m, i, proxies).(announced := announced), k) == if k == i then proxies else Proxies(m, k)
  {
  }

  lemma RemoveHides(m: Mirror, l: Location, k: Location)
    requires IsMedia(l.interface) && IsMedia(k.interface)
    ensures Shown(HideProxy(m, l), k) == if k == l then None else Shown(m, k)
    ensures HideProxy(m, l).available == m.available
  {
    if l.path in Proxies(m, l.interface) {
      ProxiesWith(m, l.interface, Proxies(m, l.interface) - {l.path}, HideProxy(m, l).announced, k.interface);
    }
  }

  lemma DispatchPosted(project: Projection, m: Mirror, l: Location, props: Props, k: Location)
    requires Projects(project) && IsMedia(l.interface) && IsMedia(k.interface) && ShortMessage(project(l, props))
    ensures var m' := Dispatch(m, Wire(project, Posted(l, props)));
      && m'.available == m.available
      && Shown(m', k) == if k == l then Some(project(l, props)) else Shown(m, k)
  {
    var message := project(l, props);
    var bytes := [TagFor(l.interface)] + EncodeMessage(message);
    TaggedRoundTrip(TagFor(l.interface), message);
    UpdateShows(m, l.interface, bytes, message, 1 + |EncodeMessage(message)|, k);
    TagDispatches(m, l.interface, bytes);
  }

  lemma TagDispatches(m: Mirror, i: Interface, message: seq<byte>)
    requires IsMedia(i) && message != [] && message[0] == TagFor(i)
    ensures Dispatch(m, message) == ShowProps(m, i, message)
  {
  }

  lemma RemovedIsShort(l: Location)
    requires IsMedia(l.interface) && |l.path| < UINT32_RANGE
    ensures ShortMessage(RemovedMessage(l))
  {
    NameRoundTrip(l.interface);
    var vs := Values(Fields(RemovedMessage(l)));
    assert vs == [Octets(l.path), Octets(WireName(l.interface))];
    assert vs[1..] == [Octets(WireName(l.interface))] && vs[1..][1..] == [];
    assert Short(vs[0]) && Short(vs[1..][0]);
    assert ShortAll(vs[1..][1..]) && ShortAll(vs[1..]);
  }

  lemma RemovedTagDispatches(m: Mirror, l: Location, message: seq<byte>, next: nat)
    requires message != [] && message[0] == REMOVED_TAG && IsMedia(l.interface)
    requires DecodeMessage(RemovedKind, message, 1) == Some(Decoded(RemovedMessage(l), next))
    ensures Dispatch(m, message) == HideProxy(m, l)
  {
    NameRoundTrip(l.interface);
  }

  lemma DroppedDispatches(project: Projection, m: Mirror, l: Location)
    requires IsMedia(l.interface) && |l.path| < UINT32_RANGE
    ensures Dispatch(m, Wire(project, Dropped(l))) == HideProxy(m, l)
  {
    var message := RemovedMessage(l);
    RemovedIsShort(l);
    TaggedRoundTrip(REMOVED_TAG, message);
    RemovedTagDispatches(m, l, [REMOVED_TAG] + EncodeMessage(message), 1 + |EncodeMessage(message)|);
  }

  lemma DispatchDropped(project: Projection, m: Mirror, l: Location, k: Location)
    requires IsMedia(l.interface) && |l.path| < UINT32_RANGE && IsMedia(k.interface)
    ensures var m' := Dispatch(m, Wire(project, Dropped(l)));
      && m'.available == m.available
      && Shown(m', k) == if k == l then None else Shown(m, k)
  {
    DroppedDispatches(project, m, l);
    RemoveHides(m, l, k);
  }

  lemma DispatchOther(project: Projection, m: Mirror, e: Event, k: Location)
    requires e.SnapshotDone? || e.ServiceLost? || e.ServiceReady?
    ensures Shown(Dispatch(m, Wire(project, e)), k) == Shown(m, k)
  {
  }

  // ---------------------------------------------------------------- the tags

  /** The bytes that begin what is posted. */
  lemma PostedTags(project: Projection, l: Location, props: Props)
    ensures Wire(project, ServiceLost) == [0x30] && Wire(project, ServiceReady) == [0x31]
    ensures Wire(project, SnapshotDone) == [0x00]
    ensures IsMedia(l.interface) ==>
      Wire(project, Dropped(l))[0] == 0x7E
      && Wire(project, Posted(l, props))[0] ==
         match l.interface
         case Player => 0x01
         case Control => 0x02
         case Transport => 0x04
         case Folder => 0x05
         case Item => 0x06
  {
  }

  /** What the client does with each: a properties message is put into the map of its kind, under its
      path, */
  lemma PropertiesByTag(m: Mirror, message: Message)
    requires ShortMessage(message)
    ensures var bytes := EncodeMessage(message);
      && (message.PlayerProps? ==>
            var m' := Dispatch(m, [0x01] + bytes);
            m' == m.(players := m.players[message.objectPath := message], announced := m'.announced))
      && (message.ControlProps? ==>
            var m' := Dispatch(m, [0x02] + bytes);
            m' == m.(controls := m.controls[message.objectPath := message], announced := m'.announced))
      && (message.TransportProps? ==>
            var m' := Dispatch(m, [0x04] + bytes);
            m' == m.(transports := m.transports[message.objectPath := message], announced := m'.announced))
      && (message.FolderProps? ==>
            var m' := Dispatch(m, [0x05] + bytes);
            m' == m.(folders := m.folders[message.objectPath := message], announced := m'.announced))
      && (message.MediaItem? ==>
            var m' := Dispatch(m, [0x06] + bytes);
            m' == m.(items := m.items[message.item.objectPath := message], announced := m'.announced))
  {
    if message.PlayerProps? { ShownByTag(m, Player, message); }
    if message.ControlProps? { ShownByTag(m, Control, message); }
    if message.TransportProps? { ShownByTag(m, Transport, message); }
    if message.FolderProps? { ShownByTag(m, Folder, message); }
    if message.MediaItem? { ShownByTag(m, Item, message); }
  }

  lemma ShownByTag(m: Mirror, i: Interface, message: Message)
    requires IsMedia(i) && KindOf(message) == KindFor(i) && ShortMessage(message)
    ensures var m' := Dispatch(m, [TagFor(i)] + EncodeMessage(message));
      m' == WithProxies(m, i, Proxies(m, i)[PathOf(message) := message]).(announced := m'.announced)
  {
    TaggedRoundTrip(TagFor(i), message);
    TagDispatches(m, i, [TagFor(i)] + EncodeMessage(message));
  }

  function InterfaceName(i: Interface): string
    requires IsMedia(i)
  {
    match i
    case Player => "org.bluez.MediaPlayer1"
    case Control => "org.bluez.MediaControl1"
    case Transport => "org.bluez.MediaTransport1"
    case Folder => "org.bluez.MediaFolder1"
    case Item => "org.bluez.MediaItem1"
  }

  /** and a removal takes the path out of the map that its interface name belongs to. */
  lemma RemovalByName(m: Mirror, path: Text, i: Interface)
    requires IsMedia(i) && ShortMessage(ObjectRemoved(path, Ascii(InterfaceName(i))))
    ensures var m' := Dispatch(m, [0x7E] + EncodeMessage(ObjectRemoved(path, Ascii(InterfaceName(i)))));
      match i
      case Player => m' == m.(players := m.players - {path}, announced := m'.announced)
      case Control => m' == m.(controls := m.controls - {path}, announced := m'.announced)
      case Transport => m' == m.(transports := m.transports - {path}, announced := m'.announced)
      case Folder => m' == m.(folders := m.folders - {path}, announced := m'.announced)
      case Item => m' == m.(items := m.items - {path}, announced := m'.announced)
  {
    assert Ascii(InterfaceName(i)) == WireName(i);
    NamedRemoval(m, path, i);
  }

  lemma NamedRemoval(m: Mirror, path: Text, i: Interface)
    requires IsMedia(i) && ShortMessage(ObjectRemoved(path, WireName(i)))
    ensures var m' := Dispatch(m, [0x7E] + EncodeMessage(ObjectRemoved(path, WireName(i))));
      m' == WithProxies(m, i, Proxies(m, i) - {path}).(announced := m'.announced)
  {
    var message := ObjectRemoved(path, WireName(i));
    TaggedRoundTrip(0x7E, message);
    NameRoundTrip(i);
    RemovedTagDispatches(m, Location(path, i), [0x7E] + EncodeMessage(message), 1 + |EncodeMessage(message)|);
    HiddenOnly(m, Location(path, i));
  }

  lemma HiddenOnly(m: Mirror, l: Location)
    ensures var m' := HideProxy(m, l);
      match l.interface
      case Player => m' == m.(players := m.players - {l.path}, announced := m'.announced)
      case Control => m' == m.(controls := m.controls - {l.path}, announced := m'.announced)
      case Transport => m' == m.(transports := m.transports - {l.path}, announced := m'.announced)
      case Folder => m' == m.(folders := m.folders - {l.path}, announced := m'.announced)
      case Item => m' == m.(items := m.items - {l.path}, announced := m'.announced)
      case Other(_) => m' == m
  {
    if l.path !in Proxies(m, l.interface) {
      assert Proxies(m, l.interface) - {l.path} == Proxies(m, l.interface);
    }
  }

  // Each event acts on the shown locations like the cache change it reports.

  /** What the event carries is of a size the wire format can carry. */
  ghost predicate FitsWire(project: Projection, e: Event) {
    && (e.Dropped? ==> |e.location.path| < UINT32_RANGE)
    && (e.Posted? && IsMedia(e.location.interface) ==> ShortMessage(project(e.location, e.props)))
  }

  /** What the last event about `k` says. */
  function Reported(project: Projection, events: seq<Event>, k: Location): Option<Message> {
    if events == [] then None
    else
      var last, front := events[|events| - 1], events[..|events| - 1];
      if last.Posted? && last.location == k then Some(project(k, last.props))
      else if last.Dropped? && last.location == k then None
      else Reported(project, front, k)
  }

  lemma {:induction false} MirrorShowsReports(project: Projection, events: seq<Event>, k: Location)
    requires Projects(project) && IsMedia(k.interface)
    requires forall e | e in events :: FitsWire(project, e)
    ensures Shown(Replayed(project, events), k) == Reported(project, events, k)
  {
    if events != [] {
      var last, front := events[|events| - 1], events[..|events| - 1];
      MirrorShowsReports(project, front, k);
      var m := Replayed(project, front);
      assert FitsWire(project, last) by { assert last in events; }
      match last
      case Posted(l, props) => if IsMedia(l.interface) { DispatchPosted(project, m, l, props, k); }
      case Dropped(l) => if IsMedia(l.interface) { DispatchDropped(project, m, l, k); }
      case _ => DispatchOther(project, m, last, k);
    }
  }

  // The streams of added and removed proxies tell the truth, whatever bytes arrive.

  /** What the last announcement about `l` says. */
  function Known(announced: seq<Announcement>, l: Location): bool {
    if announced == [] then false
    else
      var last := announced[|announced| - 1];
      if last == Appeared(l) then true
      else if last == Vanished(l) then false
      else Known(announced[..|announced| - 1], l)
  }

  lemma KnownSnoc(announced: seq<Announcement>, a: Announcement, l: Location)
    ensures Known(announced + [a], l) ==
      (a == Appeared(l) || (a != Vanished(l) && Known(announced, l)))
  {
    assert (announced + [a])[..|announced|] == announced;
  }

  /** The location has a proxy exactly when its last announcement was an appearance. */
  ghost predicate Truthful(m: Mirror, l: Location) {
    Known(m.announced, l) == Shown(m, l).Some?
  }

  lemma ShowPropsAnnounces(m: Mirror, i: Interface, message: seq<byte>, l: Location)
    requires IsMedia(i) && IsMedia(l.interface) && Truthful(m, l)
    ensures Truthful(ShowProps(m, i, message), l)
  {
    var props := DecodeMessage(KindFor(i), message, 1);
    if props.Some? {
      var path := PathOf(props.value.value);
      UpdateShows(m, i, message, props.value.value, props.value.next, l);
      KnownSnoc(m.announced, Appeared(Location(path, i)), l);
      assert m.announced + [] == m.announced;
    }
  }

  lemma HideProxyAnnounces(m: Mirror, gone: Location, l: Location)
    requires IsMedia(l.interface) && Truthful(m, l)
    ensures Truthful(HideProxy(m, gone), l)
  {
    if gone.path in Proxies(m, gone.interface) {
      RemoveHides(m, gone, l);
      KnownSnoc(m.announced, Vanished(gone), l);
    }
  }

  lemma RemovedAnnounces(m: Mirror, message: seq<byte>, l: Location)
    requires message != [] && message[0] == REMOVED_TAG
    requires IsMedia(l.interface) && Truthful(m, l)
    ensures Truthful(Dispatch(m, message), l)
  {
    var removed := DecodeMessage(RemovedKind, message, 1);
    if removed.Some? {
      HideProxyAnnounces(m, Location(removed.value.value.objectPath, ParseName(removed.value.value.interfaceName)), l);
    }
  }

  lemma FlagsAnnounce(m: Mirror, tag: byte, l: Location)
    requires IsFlagTag(tag) && IsMedia(l.interface) && Truthful(m, l)
    ensures Truthful(SetFlag(m, tag), l)
  {
    FlagShows(m, tag, l);
    KnownSnoc(m.announced, Availability(tag == BACK_TAG), l);
  }

  /** Whatever bytes arrive, the streams of added and removed proxies keep telling the truth. */
  lemma DispatchAnnounces(m: Mirror, message: seq<byte>, l: Location)
    requires IsMedia(l.interface) && Truthful(m, l)
    ensures Truthful(Dispatch(m, message), l)
  {
    if message == [] {
    } else if i: Interface :| IsMedia(i) && TagFor(i) == message[0] {
      TagDispatches(m, i, message);
      ShowPropsAnnounces(m, i, message, l);
    } else if message[0] == REMOVED_TAG {
      RemovedAnnounces(m, message, l);
    } else if IsFlagTag(message[0]) {
      FlagsAnnounce(m, message[0], l);
    } else {
      assert TagFor(Player) == 0x01 && TagFor(Control) == 0x02 && TagFor(Transport) == 0x04;
      assert TagFor(Folder) == 0x05 && TagFor(Item) == 0x06;
    }
  }

  /** The announcements about `l`: true for an appearance. */
  function About(announced: seq<Announcement>, l: Location): seq<bool> {
    if announced == [] then []
    else
      var last := announced[|announced| - 1];
      About(announced[..|announced| - 1], l)
      + if last == Appeared(l) then [true] else if last == Vanished(l) then [false] else []
  }

  lemma AboutSnoc(announced: seq<Announcement>, a: Announcement, l: Location)
    ensures About(announced + [a], l) ==
      About(announced, l) + if a == Appeared(l) then [true] else if a == Vanished(l) then [false] else []
  {
    assert (announced + [a])[..|announced|] == announced;
  }

  /** Something is announced about `l` if and only if it has come or gone, and then just that. */
  ghost predicate TellsChange(m: Mirror, m': Mirror, l: Location) {
    About(m'.announced, l) ==
      About(m.announced, l) + if Shown(m', l).Some? == Shown(m, l).Some? then [] else [Shown(m', l).Some?]
  }

  lemma NothingTold(m: Mirror, m': Mirror, l: Location)
    requires m'.announced == m.announced && Shown(m', l).Some? == Shown(m, l).Some?
    ensures TellsChange(m, m', l)
  {
    assert About(m.announced, l) + [] == About(m.announced, l);
  }

  lemma ShowPropsTells(m: Mirror, i: Interface, message: seq<byte>, l: Location)
    requires IsMedia(i) && IsMedia(l.interface)
    ensures TellsChange(m, ShowProps(m, i, message), l)
  {
    var m', props := ShowProps(m, i, message), DecodeMessage(KindFor(i), message, 1);
    if props.None? {
      NothingTold(m, m', l);
    } else {
      var k := Location(PathOf(props.value.value), i);
      UpdateShows(m, i, message, props.value.value, props.value.next, l);
      if Shown(m, k).Some? {
        NothingTold(m, m', l);
      } else {
        AboutSnoc(m.announced, Appeared(k), l);
      }
    }
  }

  lemma HideProxyTells(m: Mirror, gone: Location, l: Location)
    requires IsMedia(l.interface)
    ensures TellsChange(m, HideProxy(m, gone), l)
  {
    if Shown(m, gone).None? {
      NothingTold(m, HideProxy(m, gone), l);
    } else {
      RemoveHides(m, gone, l);
      AboutSnoc(m.announced, Vanished(gone), l);
    }
  }

  lemma RemovedTells(m: Mirror, message: seq<byte>, l: Location)
    requires message != [] && message[0] == REMOVED_TAG && IsMedia(l.interface)
    ensures TellsChange(m, Dispatch(m, message), l)
  {
    var removed := DecodeMessage(RemovedKind, message, 1);
    if removed.None? {
      NothingTold(m, m, l);
    } else {
      HideProxyTells(m, Location(removed.value.value.objectPath, ParseName(removed.value.value.interfaceName)), l);
    }
  }

  lemma FlagsTell(m: Mirror, tag: byte, l: Location)
    requires IsFlagTag(tag) && IsMedia(l.interface)
    ensures TellsChange(m, SetFlag(m, tag), l)
  {
    var m' := SetFlag(m, tag);
    FlagShows(m, tag, l);
    if m'.announced == m.announced {
      NothingTold(m, m', l);
    } else {
      AboutSnoc(m.announced, Availability(tag == BACK_TAG), l);
      assert About(m.announced, l) + [] == About(m.announced, l);
    }
  }

  lemma FlagShows(m: Mirror, tag: byte, l: Location)
    requires IsFlagTag(tag)
    ensures Shown(SetFlag(m, tag), l) == Shown(m, l)
    ensures var after := SetFlag(m, tag).announced;
      after == m.announced || after == m.announced + [Availability(tag == BACK_TAG)]
  {
    match l.interface
    case Player =>
    case Control =>
    case Transport =>
    case Folder =>
    case Item =>
    case Other(_) =>
  }

  /** Whatever bytes arrive, a proxy is announced as added or removed exactly when it is: an update of one
      that is there, or a removal of one that is not, is not announced. */
  lemma DispatchTellsChanges(m: Mirror, message: seq<byte>, l: Location)
    requires IsMedia(l.interface)
    ensures TellsChange(m, Dispatch(m, message), l)
  {
    if message == [] {
      NothingTold(m, m, l);
    } else if i: Interface :| IsMedia(i) && TagFor(i) == message[0] {
      TagDispatches(m, i, message);
      ShowPropsTells(m, i, message, l);
    } else if message[0] == REMOVED_TAG {
      RemovedTells(m, message, l);
    } else if IsFlagTag(message[0]) {
      FlagsTell(m, message[0], l);
    } else {
      assert TagFor(Player) == 0x01 && TagFor(Control) == 0x02 && TagFor(Transport) == 0x04;
      assert TagFor(Folder) == 0x05 && TagFor(Item) == 0x06;
      NothingTold(m, m, l);
    }
  }

  // The cache reports itself.

  /** The events posted so far report what is cached at `k`. */
  ghost predicate ReportsAt(project: Projection, n: Native, k: Location) {
    Reported(project, n.events, k) == if k in n.entries then Some(project(k, n.entries[k].props)) else None
  }

  lemma ReportedSnoc(project: Projection, events: seq<Event>, e: Event, k: Location)
    ensures Reported(project, events + [e], k) ==
      if e.Posted? && e.location == k then Some(project(k, e.props))
      else if e.Dropped? && e.location == k then None
      else Reported(project, events, k)
  {
    assert (events + [e])[..|events|] == events;
  }

  lemma {:induction false} AddObjectReports(project: Projection, n: Native, o: Object, k: Location)
    requires ReportsAt(project, n, k)
    ensures ReportsAt(project, AddObject(n, o), k)
    decreases |o.interfaces|
  {
    if o.interfaces != [] {
      var last := |o.interfaces| - 1;
      var front := AddObject(n, o.(interfaces := o.interfaces[..last]));
      AddObjectReports(project, n, o.(interfaces := o.interfaces[..last]), k);
      ReportedSnoc(project, front.events, Posted(Location(o.path, o.interfaces[last].0), o.interfaces[last].1), k);
    }
  }

  lemma {:induction false} AddObjectsReport(project: Projection, n: Native, os: seq<Object>, k: Location)
    requires ReportsAt(project, n, k)
    ensures ReportsAt(project, AddObjects(n, os), k)
  {
    if os != [] {
      AddObjectsReport(project, n, os[..|os| - 1], k);
      AddObjectReports(project, AddObjects(n, os[..|os| - 1]), os[|os| - 1], k);
    }
  }

  lemma {:induction false} RemoveReports(project: Projection, n: Native, path: Text, interfaces: seq<Interface>,
                                         k: Location)
    requires ReportsAt(project, n, k)
    ensures ReportsAt(project, RemoveInterfaces(n, path, interfaces), k)
  {
    if interfaces != [] {
      var last := |interfaces| - 1;
      var front := RemoveInterfaces(n, path, interfaces[..last]);
      RemoveReports(project, n, path, interfaces[..last], k);
      ReportedSnoc(project, front.events, Dropped(Location(path, interfaces[last])), k);
    }
  }

  lemma ApplyReports(project: Projection, n: Native, u: Update, k: Location)
    requires ReportsAt(project, n, k)
    ensures ReportsAt(project, Apply(n, u), k)
  {
    match u
    case Added(o) => AddObjectReports(project, n, o, k);
    case Removed(path, interfaces) => RemoveReports(project, n, path, interfaces, k);
    case Changed(path, interface, changed, invalidated) =>
      var l := Location(path, interface);
      if l in n.entries {
        if changed == map[] {
          assert n.entries[l].props + changed == n.entries[l].props;
          assert n.events + [] == n.events;
        } else {
          ReportedSnoc(project, n.events, Posted(l, n.entries[l].props + changed), k);
        }
      }
  }

  lemma {:induction false} ApplyAllReports(project: Projection, n: Native, us: seq<Update>, k: Location)
    requires ReportsAt(project, n, k)
    ensures ReportsAt(project, ApplyAll(n, us), k)
  {
    if us != [] {
      ApplyAllReports(project, n, us[..|us| - 1], k);
      ApplyReports(project, ApplyAll(n, us[..|us| - 1]), us[|us| - 1], k);
    }
  }

  lemma ReplyReports(project: Projection, n: Native, q: Query, reply: Option<Props>, k: Location)
    requires ReportsAt(project, n, k)
    ensures ReportsAt(project, Reply(n, q, reply), k)
  {
    if Stores(n, q, reply) {
      ReportedSnoc(project, n.events, Posted(q.location, reply.value), k);
    }
  }

  lemma {:induction false} DropsReport(project: Projection, events: seq<Event>, order: seq<Location>, k: Location)
    ensures Reported(project, events + Drops(order), k) ==
      if k in order then None else Reported(project, events, k)
  {
    if order == [] {
      assert events + Drops(order) == events;
    } else {
      var last := |order| - 1;
      DropsReport(project, events, order[..last], k);
      ReportedSnoc(project, events + Drops(order[..last]), Dropped(order[last]), k);
      assert events + Drops(order) == events + Drops(order[..last]) + [Dropped(order[last])];
    }
  }

  lemma OwnerChangeReports(project: Projection, n: Native, running: bool, order: seq<Location>, k: Location)
    requires ReportsAt(project, n, k) && Enumerates(order, n.entries.Keys)
    ensures ReportsAt(project, OwnerChange(n, running, order), k)
  {
    DropsReport(project, n.events, order, k);
    ReportedSnoc(project, n.events + Drops(order), ServiceLost, k);
  }

  lemma SnapshotReports(project: Projection, n: Native, generation: nat, objects: Option<seq<Object>>, k: Location)
    requires ReportsAt(project, n, k)
    ensures ReportsAt(project, Snapshot(n, generation, objects), k)
  {
    if generation == n.generation && objects.Some? {
      var start := n.(resynchronizing := false, pending := []);
      var added := AddObjects(start, objects.value);
      AddObjectsReport(project, start, objects.value, k);
      ApplyAllReports(project, added, n.pending, k);
      ReportedSnoc(project, ApplyAll(added, n.pending).events, ServiceReady, k);
    }
  }

  lemma StepReports(project: Projection, s: System, a: Action, k: Location)
    requires Enabled(s, a) && ReportsAt(project, s.native, k)
    ensures ReportsAt(project, Next(s, a).native, k)
  {
    match a
    case Sends(_, _) =>
    case Consumes(order) =>
      if s.sent[s.head].Signal? {
        ApplyReports(project, s.native, s.sent[s.head].update, k);
      } else {
        OwnerChangeReports(project, s.native, s.sent[s.head].running, order, k);
      }
    case Answers(i, at) =>
      var q := s.calls[i].query;
      ReplyReports(project, s.native, q, Look(s.states[at], q.location), k);
    case Fails(i) => ReplyReports(project, s.native, s.calls[i].query, None, k);
    case SnapshotArrives(i, _, objects) =>
      SnapshotReports(project, s.native, s.snapshots[i].generation, Some(objects), k);
    case SnapshotFails(i) => SnapshotReports(project, s.native, s.snapshots[i].generation, None, k);
  }

  lemma {:induction false} RunReports(project: Projection, s: System, actions: seq<Action>, k: Location)
    requires Runs(s, actions) && ReportsAt(project, s.native, k)
    ensures ReportsAt(project, After(s, actions).native, k)
    decreases |actions|
  {
    if actions != [] {
      StepReports(project, s, actions[0], k);
      RunReports(project, Next(s, actions[0]), actions[1..], k);
    }
  }

  /** Mirror refinement. In every reachable state, owner losses included, dispatching the posted
      bytes in order leaves the Dart client showing exactly the native cache. */
  lemma MirrorShowsCache(project: Projection, start: System, actions: seq<Action>, k: Location)
    requires Projects(project) && Init(start) && Runs(start, actions) && IsMedia(k.interface)
    requires forall e | e in After(start, actions).native.events :: FitsWire(project, e)
    ensures var n := After(start, actions).native;
      Shown(Replayed(project, n.events), k) == if k in n.entries then Some(project(k, n.entries[k].props)) else None
  {
    var objects :| Lists(objects, start.states[|start.sent|]) && start.native == FirstSnapshot(EMPTY, objects);
    AddObjectsReport(project, EMPTY, objects, k);
    ReportedSnoc(project, AddObjects(EMPTY, objects).events, SnapshotDone, k);
    RunReports(project, start, actions, k);
    MirrorShowsReports(project, After(start, actions).native.events, k);
  }

  /** End to end: after a run that has gone quiet, the Dart client shows at `k` what the service
      exports there, unless a failure left a stale key at `k` or lost it. Earlier failures, and those
      elsewhere, do not matter. */
  lemma MirrorShowsService(project: Projection, start: System, actions: seq<Action>, k: Location)
    requires Projects(project) && Init(start) && Runs(start, actions) && IsMedia(k.interface)
    requires forall e | e in After(start, actions).native.events :: FitsWire(project, e)
    requires var s := After(start, actions); Quiet(s) && !HasStaleKey(s, k) && !Lost(s, k)
    ensures var s := After(start, actions);
      && |s.sent| < |s.states|
      && Shown(Replayed(project, s.native.events), k) ==
           match Look(s.states[|s.sent|], k) case None => None case Some(props) => Some(project(k, props))
  {
    Convergence(start, actions, k);
    MirrorShowsCache(project, start, actions, k);
  }

  /** Without failures that holds everywhere. */
  lemma FaultlessMirror(project: Projection, start: System, actions: seq<Action>, k: Location)
    requires Projects(project) && Init(start) && Runs(start, actions) && IsMedia(k.interface)
    requires forall e | e in After(start, actions).native.events :: FitsWire(project, e)
    requires Quiet(After(start, actions)) && Faultless(start, actions)
    ensures var s := After(start, actions);
      && |s.sent| < |s.states|
      && Shown(Replayed(project, s.native.events), k) ==
           match Look(s.states[|s.sent|], k) case None => None case Some(props) => Some(project(k, props))
  {
    FaultlessRun(start, actions);
    StaleMeansTainted(start, actions, k);
    MirrorShowsService(project, start, actions, k);
  }
}
