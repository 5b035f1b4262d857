/** The messages of native/include/bluez_media_types.h, laid out for the wire in the order of
    their `glz::meta` field lists, and read back in the order of the `_decode...` functions of
    lib/src/ffi/codec.dart. Strings are byte strings; UTF-8 is not decoded. */
module Messages {
  import opened Wrappers
  import opened WireCodec

  type uint8 = n: int | 0 <= n < 0x100
  type uint16 = n: int | 0 <= n < 0x1_0000
  type uint32 = n: int | 0 <= n < 0x1_0000_0000
  type int32 = n: int | -0x8000_0000 <= n < 0x8000_0000
  type Text = seq<byte>

  datatype Property = Property(key: Text, value: Text)

  datatype ItemProps = ItemProps(
    objectPath: Text, player: Text, name: Text, kind: Text, folderType: Text, playable: bool,
    metadata: seq<Property>)

  datatype Message =
    | PlayerProps(objectPath: Text, equalizer: Text, repeat: Text, shuffle: Text, scan: Text, status: Text,
                  position: uint32, track: seq<Property>, device: Text, name: Text, kind: Text, subtype: Text,
                  browsable: bool, searchable: bool, playlist: Text, obexPort: uint16)
    | ControlProps(objectPath: Text, connected: bool, player: Text)
    | TransportProps(objectPath: Text, device: Text, uuid: Text, codec: uint8, configuration: seq<byte>,
                     state: Text, delay: uint16, volume: uint16, endpoint: Text)
    | FolderProps(objectPath: Text, numberOfItems: uint32, name: Text)
    | MediaItem(item: ItemProps)
    | FolderItems(objectPath: Text, listing: seq<ItemProps>)
    | MediaError(objectPath: Text, name: Text, message: Text)
    | AcquireResult(transportPath: Text, fd: int32, readMtu: uint16, writeMtu: uint16)
    | ManagedObjects(media: seq<Text>, players: seq<Text>, controls: seq<Text>, transports: seq<Text>,
                     folders: seq<Text>, items: seq<Text>)
    | ObjectRemoved(objectPath: Text, interfaceName: Text)

  datatype Kind =
    | PlayerKind | ControlKind | TransportKind | FolderKind | ItemKind | FolderItemsKind
    | ErrorKind | AcquireKind | ManagedKind | RemovedKind

  function KindOf(m: Message): Kind {
    match m
    case PlayerProps(_, _, _, _, _, _, _, _, _, _, _, _, _, _, _, _) => PlayerKind
    case ControlProps(_, _, _) => ControlKind
    case TransportProps(_, _, _, _, _, _, _, _, _) => TransportKind
    case FolderProps(_, _, _) => FolderKind
    case MediaItem(_) => ItemKind
    case FolderItems(_, _) => FolderItemsKind
    case MediaError(_, _, _) => ErrorKind
    case AcquireResult(_, _, _, _) => AcquireKind
    case ManagedObjects(_, _, _, _, _, _) => ManagedKind
    case ObjectRemoved(_, _) => RemovedKind
  }

  // ---------------------------------------------------------------- the C++ side

  /** One entry of a `glz::meta` tuple applied to an object: the field's type and its value. */
  datatype Field = Field(schema: Schema, value: Value)

  /** The value inhabits the field's type. */
  ghost predicate Good(f: Field) {
    Typed(f.schema, f.value)
  }

  function TextField(t: Text): (f: Field) ensures Good(f) { Field(Schema.Text, Octets(t)) }
  function BlobField(b: seq<byte>): (f: Field) ensures Good(f) { Field(Blob, Octets(b)) }
  function Bool(b: bool): (f: Field) ensures Good(f) { Field(Flag, Truth(b)) }

  function U8(n: uint8): (f: Field)
    ensures Good(f)
  {
    assert Pow256(1) == 0x100;
    Field(Unsigned(1), Number(n))
  }

  function U16(n: uint16): (f: Field)
    ensures Good(f)
  {
    assert Pow256(2) == 0x1_0000;
    Field(Unsigned(2), Number(n))
  }

  function U32(n: uint32): (f: Field)
    ensures Good(f)
  {
    assert Pow256(4) == UINT32_RANGE;
    Field(Unsigned(4), Number(n))
  }

  function I32(n: int32): (f: Field)
    ensures Good(f)
  {
    assert Pow256(4) == UINT32_RANGE;
    Field(Signed(4), Number(n))
  }

  function TextList(ts: seq<Text>): (f: Field)
    ensures Good(f)
  {
    var vs := seq(|ts|, i requires 0 <= i < |ts| => Octets(ts[i]));
    ElementsTyped(Schema.Text, vs);
    Field(ListOf(Schema.Text), Items(vs))
  }

  function PropertyList(ps: seq<Property>): (f: Field)
    ensures Good(f)
  {
    var vs := seq(|ps|, i requires 0 <= i < |ps| => PropertyValue(ps[i]));
    ElementsTyped(PROPERTY, vs);
    Field(ListOf(PROPERTY), Items(vs))
  }

  function PropertyValue(p: Property): (v: Value)
    ensures Typed(PROPERTY, v)
  {
    MembersTyped(PROPERTY.fields, [Octets(p.key), Octets(p.value)]);
    Record([Octets(p.key), Octets(p.value)])
  }

  function ItemFields(p: ItemProps): (fs: seq<Field>)
    ensures Schemas(fs) == ITEM.fields
    ensures forall f | f in fs :: Good(f)
  {
    [TextField(p.objectPath), TextField(p.player), TextField(p.name), TextField(p.kind),
     TextField(p.folderType), Bool(p.playable), PropertyList(p.metadata)]
  }

  function ItemList(ps: seq<ItemProps>): (f: Field)
    ensures Good(f)
  {
    var vs := seq(|ps|, i requires 0 <= i < |ps| => ItemValue(ps[i]));
    ElementsTyped(ITEM, vs);
    Field(ListOf(ITEM), Items(vs))
  }

  function ItemValue(p: ItemProps): (v: Value)
    ensures Typed(ITEM, v)
  {
    GoodFieldsAreTyped(ItemFields(p));
    Record(Values(ItemFields(p)))
  }

  function PlayerFields(m: Message): (fs: seq<Field>)
    requires m.PlayerProps?
    ensures Schemas(fs) == Reads(PlayerKind)
    ensures forall f | f in fs :: Good(f)
  {
    [TextField(m.objectPath), TextField(m.equalizer), TextField(m.repeat), TextField(m.shuffle),
     TextField(m.scan), TextField(m.status), U32(m.position), PropertyList(m.track),
     TextField(m.device), TextField(m.name), TextField(m.kind), TextField(m.subtype),
     Bool(m.browsable), Bool(m.searchable), TextField(m.playlist), U16(m.obexPort)]
  }

  function TransportFields(m: Message): (fs: seq<Field>)
    requires m.TransportProps?
    ensures Schemas(fs) == Reads(TransportKind)
    ensures forall f | f in fs :: Good(f)
  {
    [TextField(m.objectPath), TextField(m.device), TextField(m.uuid), U8(m.codec),
     BlobField(m.configuration), TextField(m.state), U16(m.delay), U16(m.volume),
     TextField(m.endpoint)]
  }

  function Fields(m: Message): seq<Field> {
    match m
    case PlayerProps(_, _, _, _, _, _, _, _, _, _, _, _, _, _, _, _) => PlayerFields(m)
    case ControlProps(_, _, _) => [TextField(m.objectPath), Bool(m.connected), TextField(m.player)]
    case TransportProps(_, _, _, _, _, _, _, _, _) => TransportFields(m)
    case FolderProps(_, _, _) => [TextField(m.objectPath), U32(m.numberOfItems), TextField(m.name)]
    case MediaItem(item) => ItemFields(item)
    case FolderItems(_, _) => [TextField(m.objectPath), ItemList(m.listing)]
    case MediaError(_, _, _) => [TextField(m.objectPath), TextField(m.name), TextField(m.message)]
    case AcquireResult(_, _, _, _) =>
      [TextField(m.transportPath), I32(m.fd), U16(m.readMtu), U16(m.writeMtu)]
    case ManagedObjects(_, _, _, _, _, _) =>
      [TextList(m.media), TextList(m.players), TextList(m.controls), TextList(m.transports),
       TextList(m.folders), TextList(m.items)]
    case ObjectRemoved(_, _) => [TextField(m.objectPath), TextField(m.interfaceName)]
  }

  function Schemas(fields: seq<Field>): seq<Schema> {
    seq(|fields|, i requires 0 <= i < |fields| => fields[i].schema)
  }

  function Values(fields: seq<Field>): seq<Value> {
    seq(|fields|, i requires 0 <= i < |fields| => fields[i].value)
  }

  lemma GoodFieldsAreTyped(fields: seq<Field>)
    requires forall f | f in fields :: Good(f)
    ensures TypedFields(Schemas(fields), Values(fields))
  {
    MembersTyped(Schemas(fields), Values(fields));
    forall i | 0 <= i < |fields|
      ensures Typed(Schemas(fields)[i], Values(fields)[i])
    {
      assert Good(fields[i]);
    }
  }

  // ---------------------------------------------------------------- the Dart side

  const PROPERTY := Struct([Schema.Text, Schema.Text])
  const ITEM := Struct([Schema.Text, Schema.Text, Schema.Text, Schema.Text, Schema.Text, Flag, ListOf(PROPERTY)])

  /** The reads a `_decode...` function makes, in order. */
  function Reads(kind: Kind): seq<Schema> {
    match kind
    case PlayerKind =>
      [Schema.Text, Schema.Text, Schema.Text, Schema.Text, Schema.Text, Schema.Text, Unsigned(4),
       ListOf(PROPERTY), Schema.Text, Schema.Text, Schema.Text, Schema.Text, Flag, Flag, Schema.Text, Unsigned(2)]
    case ControlKind => [Schema.Text, Flag, Schema.Text]
    case TransportKind =>
      [Schema.Text, Schema.Text, Schema.Text, Unsigned(1), Blob, Schema.Text, Unsigned(2), Unsigned(2), Schema.Text]
    case FolderKind => [Schema.Text, Unsigned(4), Schema.Text]
    case ItemKind => ITEM.fields
    case FolderItemsKind => [Schema.Text, ListOf(ITEM)]
    case ErrorKind => [Schema.Text, Schema.Text, Schema.Text]
    case AcquireKind => [Schema.Text, Signed(4), Unsigned(2), Unsigned(2)]
    case ManagedKind =>
      [ListOf(Schema.Text), ListOf(Schema.Text), ListOf(Schema.Text), ListOf(Schema.Text),
       ListOf(Schema.Text), ListOf(Schema.Text)]
    case RemovedKind => [Schema.Text, Schema.Text]
  }

  function BuildProperties(vs: seq<Value>): (ps: seq<Property>)
    requires TypedItems(PROPERTY, vs)
    ensures |ps| == |vs|
  {
    ElementsTyped(PROPERTY, vs);
    seq(|vs|, i requires 0 <= i < |vs| =>
      assert Typed(PROPERTY, vs[i]);
      MembersTyped(PROPERTY.fields, vs[i].fields);
      Property(vs[i].fields[0].bytes, vs[i].fields[1].bytes))
  }

  function BuildTexts(vs: seq<Value>): (ts: seq<Text>)
    requires TypedItems(Schema.Text, vs)
    ensures |ts| == |vs|
  {
    ElementsTyped(Schema.Text, vs);
    seq(|vs|, i requires 0 <= i < |vs| => assert Typed(Schema.Text, vs[i]); vs[i].bytes)
  }

  function BuildItem(vs: seq<Value>): ItemProps
    requires TypedFields(ITEM.fields, vs)
  {
    MembersTyped(ITEM.fields, vs);
    ItemProps(vs[0].bytes, vs[1].bytes, vs[2].bytes, vs[3].bytes, vs[4].bytes, vs[5].b,
              BuildProperties(vs[6].items))
  }

  function BuildItems(vs: seq<Value>): (ps: seq<ItemProps>)
    requires TypedItems(ITEM, vs)
    ensures |ps| == |vs|
  {
    ElementsTyped(ITEM, vs);
    seq(|vs|, i requires 0 <= i < |vs| => assert Typed(ITEM, vs[i]); BuildItem(vs[i].fields))
  }

  function BuildPlayer(v: seq<Value>): (m: Message)
    requires TypedFields(Reads(PlayerKind), v)
    ensures m.PlayerProps?
  {
    MembersTyped(Reads(PlayerKind), v);
    PlayerProps(v[0].bytes, v[1].bytes, v[2].bytes, v[3].bytes, v[4].bytes, v[5].bytes,
                AsUint32(v[6]), BuildProperties(v[7].items), v[8].bytes, v[9].bytes, v[10].bytes,
                v[11].bytes, v[12].b, v[13].b, v[14].bytes, AsUint16(v[15]))
  }

  function BuildTransport(v: seq<Value>): (m: Message)
    requires TypedFields(Reads(TransportKind), v)
    ensures m.TransportProps?
  {
    MembersTyped(Reads(TransportKind), v);
    TransportProps(v[0].bytes, v[1].bytes, v[2].bytes, AsUint8(v[3]), v[4].bytes, v[5].bytes,
                   AsUint16(v[6]), AsUint16(v[7]), v[8].bytes)
  }

  /** The named arguments each `_decode...` function fills from its reads. */
  function Build(kind: Kind, v: seq<Value>): Message
    requires TypedFields(Reads(kind), v)
  {
    MembersTyped(Reads(kind), v);
    match kind
    case PlayerKind => BuildPlayer(v)
    case ControlKind => ControlProps(v[0].bytes, v[1].b, v[2].bytes)
    case TransportKind => BuildTransport(v)
    case FolderKind => FolderProps(v[0].bytes, AsUint32(v[1]), v[2].bytes)
    case ItemKind => MediaItem(BuildItem(v))
    case FolderItemsKind => FolderItems(v[0].bytes, BuildItems(v[1].items))
    case ErrorKind => MediaError(v[0].bytes, v[1].bytes, v[2].bytes)
    case AcquireKind => AcquireResult(v[0].bytes, AsInt32(v[1]), AsUint16(v[2]), AsUint16(v[3]))
    case ManagedKind =>
      ManagedObjects(BuildTexts(v[0].items), BuildTexts(v[1].items), BuildTexts(v[2].items),
                     BuildTexts(v[3].items), BuildTexts(v[4].items), BuildTexts(v[5].items))
    case RemovedKind => ObjectRemoved(v[0].bytes, v[1].bytes)
  }

  function AsUint8(v: Value): uint8 requires Typed(Unsigned(1), v) { assert Pow256(1) == 0x100; v.n }
  function AsUint16(v: Value): uint16 requires Typed(Unsigned(2), v) { assert Pow256(2) == 0x1_0000; v.n }
  function AsUint32(v: Value): uint32 requires Typed(Unsigned(4), v) { assert Pow256(4) == UINT32_RANGE; v.n }
  function AsInt32(v: Value): int32 requires Typed(Signed(4), v) { assert Pow256(4) == UINT32_RANGE; v.n }

  lemma {:induction false} MembersTyped(fs: seq<Schema>, vs: seq<Value>)
    ensures TypedFields(fs, vs) <==> |fs| == |vs| && forall i | 0 <= i < |fs| :: Typed(fs[i], vs[i])
    decreases vs
  {
    if |fs| == |vs| && vs != [] {
      MembersTyped(fs[1..], vs[1..]);
      assert forall i | 0 <= i < |fs[1..]| :: fs[1..][i] == fs[i + 1] && vs[1..][i] == vs[i + 1];
      assert forall i | 0 < i < |fs| :: fs[i] == fs[1..][i - 1] && vs[i] == vs[1..][i - 1];
    }
  }

  lemma {:induction false} ElementsTyped(e: Schema, vs: seq<Value>)
    ensures TypedItems(e, vs) <==> forall i | 0 <= i < |vs| :: Typed(e, vs[i])
    decreases vs
  {
    if vs != [] {
      ElementsTyped(e, vs[1..]);
      assert forall i | 0 <= i < |vs[1..]| :: vs[1..][i] == vs[i + 1];
      assert forall i | 0 < i < |vs| :: vs[i] == vs[1..][i - 1];
    }
  }

  // ---------------------------------------------------------------- round trip

  /** The field types the encoder walks are the ones the decoder reads, and each value has its field's type. */
  lemma LayoutsAgree(m: Message)
    ensures Schemas(Fields(m)) == Reads(KindOf(m))
    ensures TypedFields(Reads(KindOf(m)), Values(Fields(m)))
  {
    if !(m.PlayerProps? || m.TransportProps? || m.MediaItem?) {
      SmallLayoutsAgree(m);
    }
    GoodFieldsAreTyped(Fields(m));
  }

  lemma SmallLayoutsAgree(m: Message)
    requires !(m.PlayerProps? || m.TransportProps? || m.MediaItem?)
    ensures Schemas(Fields(m)) == Reads(KindOf(m))
    ensures forall f | f in Fields(m) :: Good(f)
  {
  }

  function EncodeMessage(m: Message): seq<byte> {
    LayoutsAgree(m);
    Encode(Struct(Reads(KindOf(m))), Record(Values(Fields(m))))
  }

  function DecodeMessage(kind: Kind, data: seq<byte>, off: nat): Option<Decoded<Message>> {
    var r := Decode(Struct(Reads(kind)), data, off);
    if r.None? then None
    else
      DecodedIsTyped(Struct(Reads(kind)), data, off);
      Some(Decoded(Build(kind, r.value.value.fields), r.value.next))
  }

  lemma PropertiesComeBack(ps: seq<Property>)
    ensures BuildProperties(PropertyList(ps).value.items) == ps
  {
  }

  lemma TextsComeBack(ts: seq<Text>)
    ensures BuildTexts(TextList(ts).value.items) == ts
  {
  }

  lemma ItemComesBack(p: ItemProps)
    ensures TypedFields(ITEM.fields, Values(ItemFields(p)))
    ensures BuildItem(Values(ItemFields(p))) == p
  {
    GoodFieldsAreTyped(ItemFields(p));
    PropertiesComeBack(p.metadata);
  }

  lemma ItemsComeBack(ps: seq<ItemProps>)
    ensures BuildItems(ItemList(ps).value.items) == ps
  {
    var vs := ItemList(ps).value.items;
    forall i | 0 <= i < |ps|
      ensures BuildItems(vs)[i] == ps[i]
    {
      ItemComesBack(ps[i]);
    }
  }

  lemma PlayerComesBack(m: Message)
    requires m.PlayerProps?
    ensures TypedFields(Reads(PlayerKind), Values(PlayerFields(m)))
    ensures BuildPlayer(Values(PlayerFields(m))) == m
  {
    GoodFieldsAreTyped(PlayerFields(m));
    PropertiesComeBack(m.track);
  }

  lemma TransportComesBack(m: Message)
    requires m.TransportProps?
    ensures TypedFields(Reads(TransportKind), Values(TransportFields(m)))
    ensures BuildTransport(Values(TransportFields(m))) == m
  {
    GoodFieldsAreTyped(TransportFields(m));
  }

  /** Each named field is refilled from the read that carries it. */
  lemma FieldsComeBack(m: Message)
    ensures TypedFields(Reads(KindOf(m)), Values(Fields(m)))
    ensures Build(KindOf(m), Values(Fields(m))) == m
  {
    LayoutsAgree(m);
    match m
    case PlayerProps(_, _, _, _, _, _, _, _, _, _, _, _, _, _, _, _) => PlayerComesBack(m);
    case TransportProps(_, _, _, _, _, _, _, _, _) => TransportComesBack(m);
    case _ => SmallFieldsComeBack(m);
  }

  lemma SmallFieldsComeBack(m: Message)
    requires !(m.PlayerProps? || m.TransportProps?)
    requires TypedFields(Reads(KindOf(m)), Values(Fields(m)))
    ensures Build(KindOf(m), Values(Fields(m))) == m
  {
    match m
    case MediaItem(item) => ItemComesBack(item);
    case FolderItems(_, _) => ItemsComeBack(m.listing);
    case ManagedObjects(_, _, _, _, _, _) =>
      TextsComeBack(m.media);
      TextsComeBack(m.players);
      TextsComeBack(m.controls);
      TextsComeBack(m.transports);
      TextsComeBack(m.folders);
      TextsComeBack(m.items);
    case _ =>
  }

  /** Every string and list in the message is shorter than 2^32. */
  ghost predicate ShortMessage(m: Message) {
    ShortAll(Values(Fields(m)))
  }

  /** A message decodes to itself wherever it stands, field by field. */
  lemma MessageRoundTrip(m: Message, data: seq<byte>, off: nat)
    requires ShortMessage(m) && At(data, off, EncodeMessage(m))
    ensures DecodeMessage(KindOf(m), data, off) == Some(Decoded(m, off + |EncodeMessage(m)|))
  {
    LayoutsAgree(m);
    FieldsComeBack(m);
    RoundTrip(Struct(Reads(KindOf(m))), Record(Values(Fields(m))), data, off);
  }

  // ---------------------------------------------------------------- acquire framing

  const ACQUIRED_TAG: byte := 0x11

  /** The reply dispatch_async posts for an acquire: tag, ownership token, acquire result. */
  function FrameAcquired(token: nat, result: Message): seq<byte>
    requires token < Pow256(8) && result.AcquireResult?
  {
    [ACQUIRED_TAG] + LittleEndian(token, 8) + EncodeMessage(result)
  }

  /** _decodeAcquire on the view left after the tag: the token at 0, then the result at 8. */
  function DecodeAcquired(payload: seq<byte>): Option<(nat, Message)> {
    if |payload| < 8 then None
    else
      var result := DecodeMessage(AcquireKind, payload, 8);
      if result.None? then None
      else Some((FromLittleEndian(payload[0..8]), result.value.value))
  }

  /** Token and result survive the framing and the tag-stripping view. */
  lemma AcquiredFrameRoundTrip(token: nat, result: Message)
    requires token < Pow256(8) && result.AcquireResult? && ShortMessage(result)
    ensures var frame := FrameAcquired(token, result);
      frame[0] == ACQUIRED_TAG && DecodeAcquired(frame[1..]) == Some((token, result))
  {
    var frame := FrameAcquired(token, result);
    var payload := frame[1..];
    assert payload == LittleEndian(token, 8) + EncodeMessage(result);
    assert payload[0..8] == LittleEndian(token, 8);
    IntegerRoundTrip(token, 8);
    assert At(payload, 8, EncodeMessage(result));
    MessageRoundTrip(result, payload, 8);
  }
}
