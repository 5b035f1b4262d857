/** The bytes of each message written out, number by number and field by field, as a reader of
    native/include/bluez_media_types.h and glaze_meta.h expects them; and the proof that the encoder by
    schema of WireCodec produces exactly these. */
module WireLayout {
  import opened Wrappers
  import opened WireCodec
  import opened Messages

  // ---------------------------------------------------------------- the reference

  function Join(parts: seq<seq<byte>>): seq<byte> {
    if parts == [] then [] else parts[0] + Join(parts[1..])
  }

  function Byte(n: int): seq<byte>
    requires 0 <= n < 0x100
  {
    [n]
  }

  /** The low byte comes first. */
  function Two(n: int): seq<byte>
    requires 0 <= n < 0x1_0000
  {
    [n % 0x100, n / 0x100]
  }

  function Four(n: int): seq<byte>
    requires 0 <= n < 0x1_0000_0000
  {
    [n % 0x100, n / 0x100 % 0x100, n / 0x1_0000 % 0x100, n / 0x100_0000]
  }

  /** A negative number is represented by the unsigned one 2^32 above it. */
  function SignedFour(n: int32): seq<byte> {
    Four(if n < 0 then n + 0x1_0000_0000 else n)
  }

  function YesNo(b: bool): seq<byte> {
    [if b then 1 else 0]
  }

  /** A string or a list of bytes: its length, cut to 32 bits, and the bytes. */
  function String(t: Text): seq<byte> {
    Four(|t| % 0x1_0000_0000) + t
  }

  function Strings(ts: seq<Text>): seq<byte> {
    Four(|ts| % 0x1_0000_0000) + Join(seq(|ts|, i requires 0 <= i < |ts| => String(ts[i])))
  }

  function Pairs(ps: seq<Property>): seq<byte> {
    Four(|ps| % 0x1_0000_0000)
    + Join(seq(|ps|, i requires 0 <= i < |ps| => String(ps[i].key) + String(ps[i].value)))
  }

  function ItemParts(p: ItemProps): seq<seq<byte>> {
    [String(p.objectPath), String(p.player), String(p.name), String(p.kind), String(p.folderType),
     YesNo(p.playable), Pairs(p.metadata)]
  }

  /** The fields of each message, in the order of its `glz::meta` list. */
  function Parts(m: Message): seq<seq<byte>> {
    match m
    case PlayerProps(_, _, _, _, _, _, _, _, _, _, _, _, _, _, _, _) =>
      [String(m.objectPath), String(m.equalizer), String(m.repeat), String(m.shuffle), String(m.scan),
       String(m.status), Four(m.position), Pairs(m.track), String(m.device), String(m.name), String(m.kind),
       String(m.subtype), YesNo(m.browsable), YesNo(m.searchable), String(m.playlist), Two(m.obexPort)]
    case ControlProps(_, _, _) => [String(m.objectPath), YesNo(m.connected), String(m.player)]
    case TransportProps(_, _, _, _, _, _, _, _, _) =>
      [String(m.objectPath), String(m.device), String(m.uuid), Byte(m.codec), String(m.configuration),
       String(m.state), Two(m.delay), Two(m.volume), String(m.endpoint)]
    case FolderProps(_, _, _) => [String(m.objectPath), Four(m.numberOfItems), String(m.name)]
    case MediaItem(item) => ItemParts(item)
    case FolderItems(_, _) =>
      [String(m.objectPath),
       Four(|m.listing| % 0x1_0000_0000)
       + Join(seq(|m.listing|, i requires 0 <= i < |m.listing| => Join(ItemParts(m.listing[i]))))]
    case MediaError(_, _, _) => [String(m.objectPath), String(m.name), String(m.message)]
    case AcquireResult(_, _, _, _) =>
      [String(m.transportPath), SignedFour(m.fd), Two(m.readMtu), Two(m.writeMtu)]
    case ManagedObjects(_, _, _, _, _, _) =>
      [Strings(m.media), Strings(m.players), Strings(m.controls), Strings(m.transports), Strings(m.folders),
       Strings(m.items)]
    case ObjectRemoved(_, _) => [String(m.objectPath), String(m.interfaceName)]
  }

  // ---------------------------------------------------------------- numbers

  lemma LittleEndianTwo(n: nat)
    requires n < 0x1_0000
    ensures LittleEndian(n, 2) == Two(n)
  {
    var rest := LittleEndian(n / 0x100, 1);
    assert LittleEndian(n / 0x100 / 0x100, 0) == [];
    assert rest == [n / 0x100];
  }

  lemma LittleEndianFour(n: nat)
    requires n < 0x1_0000_0000
    ensures LittleEndian(n, 4) == Four(n)
  {
    var a := n / 0x100;
    var b := a / 0x100;
    var c := b / 0x100;
    assert b == n / 0x1_0000 && c == n / 0x100_0000;
    assert LittleEndian(c / 0x100, 0) == [];
    assert LittleEndian(c, 1) == [c % 0x100];
    assert LittleEndian(b, 2) == [b % 0x100, c % 0x100];
    assert LittleEndian(a, 3) == [a % 0x100, b % 0x100, c % 0x100];
  }

  lemma PrefixIsFour(size: nat)
    ensures Prefix(size) == Four(size % 0x1_0000_0000)
  {
    LittleEndianFour(size % 0x1_0000_0000);
  }

  // ---------------------------------------------------------------- fields and elements

  function Encodings(fs: seq<Schema>, vs: seq<Value>): seq<seq<byte>>
    requires TypedFields(fs, vs)
  {
    MembersTyped(fs, vs);
    seq(|fs|, i requires 0 <= i < |fs| => Encode(fs[i], vs[i]))
  }

  lemma {:induction false} FieldsJoin(fs: seq<Schema>, vs: seq<Value>)
    requires TypedFields(fs, vs)
    ensures EncodeFields(fs, vs) == Join(Encodings(fs, vs))
    decreases |vs|
  {
    if vs != [] {
      FieldsJoin(fs[1..], vs[1..]);
      assert Encodings(fs, vs)[1..] == Encodings(fs[1..], vs[1..]);
    }
  }

  function EncodedItems(e: Schema, vs: seq<Value>): seq<seq<byte>>
    requires TypedItems(e, vs)
  {
    ElementsTyped(e, vs);
    seq(|vs|, i requires 0 <= i < |vs| => Encode(e, vs[i]))
  }

  lemma {:induction false} ItemsJoin(e: Schema, vs: seq<Value>)
    requires TypedItems(e, vs)
    ensures EncodeItems(e, vs) == Join(EncodedItems(e, vs))
    decreases |vs|
  {
    if vs != [] {
      ItemsJoin(e, vs[1..]);
      assert EncodedItems(e, vs)[1..] == EncodedItems(e, vs[1..]);
    }
  }

  lemma TextImage(t: Text)
    ensures Encode(Schema.Text, Octets(t)) == String(t) && Encode(Blob, Octets(t)) == String(t)
  {
    PrefixIsFour(|t|);
  }

  lemma TextsImage(ts: seq<Text>)
    ensures Good(TextList(ts)) && Encode(ListOf(Schema.Text), TextList(ts).value) == Strings(ts)
  {
    var vs := TextList(ts).value.items;
    PrefixIsFour(|vs|);
    ItemsJoin(Schema.Text, vs);
    var images := seq(|ts|, i requires 0 <= i < |ts| => String(ts[i]));
    forall i | 0 <= i < |ts|
      ensures EncodedItems(Schema.Text, vs)[i] == images[i]
    {
      TextImage(ts[i]);
    }
    assert EncodedItems(Schema.Text, vs) == images;
  }

  lemma PairImage(p: Property)
    ensures Encode(PROPERTY, PropertyValue(p)) == String(p.key) + String(p.value)
  {
    var fs, vs := PROPERTY.fields, [Octets(p.key), Octets(p.value)];
    TextImage(p.key);
    TextImage(p.value);
    assert PropertyValue(p) == Record(vs) && Typed(PROPERTY, PropertyValue(p));
    FieldsJoin(fs, vs);
    var parts := Encodings(fs, vs);
    assert parts == [String(p.key), String(p.value)];
    var none: seq<seq<byte>> := [];
    assert parts[1..] == [String(p.value)] && parts[1..][1..] == none;
    var nothing: seq<byte> := [];
    assert Join(parts[1..]) == String(p.value) + Join(none) == String(p.value) + nothing == String(p.value);
    assert Encode(PROPERTY, Record(vs)) == EncodeFields(fs, vs) == Join(parts);
    assert parts[0] == String(p.key) && Join(parts) == parts[0] + Join(parts[1..]);
  }

  lemma PairsImage(ps: seq<Property>)
    ensures Good(PropertyList(ps)) && Encode(ListOf(PROPERTY), PropertyList(ps).value) == Pairs(ps)
  {
    var vs := PropertyList(ps).value.items;
    PrefixIsFour(|vs|);
    ItemsJoin(PROPERTY, vs);
    var images := seq(|ps|, i requires 0 <= i < |ps| => String(ps[i].key) + String(ps[i].value));
    forall i | 0 <= i < |ps|
      ensures EncodedItems(PROPERTY, vs)[i] == images[i]
    {
      PairImage(ps[i]);
    }
    assert EncodedItems(PROPERTY, vs) == images;
  }

  // ---------------------------------------------------------------- field by field

  /** The field is encoded to these bytes. */
  ghost predicate Images(f: Field, bytes: seq<byte>) {
    Good(f) && Encode(f.schema, f.value) == bytes
  }

  lemma TextFieldImage(t: Text)
    ensures Images(TextField(t), String(t)) && Images(BlobField(t), String(t))
  {
    TextImage(t);
  }

  lemma NumberImages(a: uint8, b: uint16, c: uint32, d: int32)
    ensures Images(U8(a), Byte(a)) && Images(U16(b), Two(b)) && Images(U32(c), Four(c)) && Images(I32(d), SignedFour(d))
  {
    assert Pow256(4) == 0x1_0000_0000;
    assert LittleEndian(a / 0x100, 0) == [];
    LittleEndianTwo(b);
    LittleEndianFour(c);
    LittleEndianFour(if d < 0 then d + 0x1_0000_0000 else d);
  }

  lemma ListImages(ps: seq<Property>, ts: seq<Text>)
    ensures Images(PropertyList(ps), Pairs(ps)) && Images(TextList(ts), Strings(ts))
  {
    PairsImage(ps);
    TextsImage(ts);
  }

  /** Fields that are encoded to the parts one by one are encoded to all of them. */
  lemma PartsImage(fields: seq<Field>, parts: seq<seq<byte>>)
    requires |fields| == |parts| && forall i | 0 <= i < |fields| :: Images(fields[i], parts[i])
    ensures TypedFields(Schemas(fields), Values(fields))
    ensures EncodeFields(Schemas(fields), Values(fields)) == Join(parts)
  {
    forall f | f in fields
      ensures Good(f)
    {
      var i :| 0 <= i < |fields| && fields[i] == f;
      assert Images(fields[i], parts[i]);
    }
    GoodFieldsAreTyped(fields);
    FieldsJoin(Schemas(fields), Values(fields));
    forall i | 0 <= i < |fields|
      ensures Encodings(Schemas(fields), Values(fields))[i] == parts[i]
    {
      assert Images(fields[i], parts[i]);
    }
    assert Encodings(Schemas(fields), Values(fields)) == parts;
  }

  lemma ItemPartsImage(p: ItemProps)
    ensures TypedFields(ITEM.fields, Values(ItemFields(p)))
    ensures EncodeFields(ITEM.fields, Values(ItemFields(p))) == Join(ItemParts(p))
  {
    TextFieldImage(p.objectPath);
    TextFieldImage(p.player);
    TextFieldImage(p.name);
    TextFieldImage(p.kind);
    TextFieldImage(p.folderType);
    ListImages(p.metadata, []);
    PartsImage(ItemFields(p), ItemParts(p));
  }

  lemma ItemListImage(ps: seq<ItemProps>)
    ensures Images(ItemList(ps), Four(|ps| % 0x1_0000_0000)
                                 + Join(seq(|ps|, i requires 0 <= i < |ps| => Join(ItemParts(ps[i])))))
  {
    var vs := ItemList(ps).value.items;
    PrefixIsFour(|vs|);
    ItemsJoin(ITEM, vs);
    var images := seq(|ps|, i requires 0 <= i < |ps| => Join(ItemParts(ps[i])));
    forall i | 0 <= i < |ps|
      ensures EncodedItems(ITEM, vs)[i] == images[i]
    {
      ItemPartsImage(ps[i]);
    }
    assert EncodedItems(ITEM, vs) == images;
  }

  lemma PlayerImage(m: Message)
    requires m.PlayerProps?
    ensures TypedFields(Reads(PlayerKind), Values(PlayerFields(m)))
    ensures EncodeFields(Reads(PlayerKind), Values(PlayerFields(m))) == Join(Parts(m))
  {
    forall t: Text
      ensures Images(TextField(t), String(t))
    {
      TextFieldImage(t);
    }
    NumberImages(0, m.obexPort, m.position, 0);
    ListImages(m.track, []);
    PartsImage(PlayerFields(m), Parts(m));
  }

  lemma TransportImage(m: Message)
    requires m.TransportProps?
    ensures TypedFields(Reads(TransportKind), Values(TransportFields(m)))
    ensures EncodeFields(Reads(TransportKind), Values(TransportFields(m))) == Join(Parts(m))
  {
    forall t: Text
      ensures Images(TextField(t), String(t)) && Images(BlobField(t), String(t))
    {
      TextFieldImage(t);
    }
    NumberImages(m.codec, m.delay, 0, 0);
    NumberImages(m.codec, m.volume, 0, 0);
    PartsImage(TransportFields(m), Parts(m));
  }

  lemma ManagedImage(m: Message)
    requires m.ManagedObjects?
    ensures TypedFields(Reads(ManagedKind), Values(Fields(m)))
    ensures EncodeFields(Reads(ManagedKind), Values(Fields(m))) == Join(Parts(m))
  {
    forall ts: seq<Text>
      ensures Images(TextList(ts), Strings(ts))
    {
      ListImages([], ts);
    }
    LayoutsAgree(m);
    PartsImage(Fields(m), Parts(m));
  }

  lemma SmallImage(m: Message)
    requires m.ControlProps? || m.FolderProps? || m.MediaError? || m.ObjectRemoved? || m.FolderItems?
    ensures TypedFields(Reads(KindOf(m)), Values(Fields(m)))
    ensures EncodeFields(Reads(KindOf(m)), Values(Fields(m))) == Join(Parts(m))
  {
    forall t: Text
      ensures Images(TextField(t), String(t))
    {
      TextFieldImage(t);
    }
    if m.FolderProps? { NumberImages(0, 0, m.numberOfItems, 0); }
    if m.FolderItems? { ItemListImage(m.listing); }
    LayoutsAgree(m);
    PartsImage(Fields(m), Parts(m));
  }

  lemma AcquireImage(m: Message)
    requires m.AcquireResult?
    ensures TypedFields(Reads(AcquireKind), Values(Fields(m)))
    ensures EncodeFields(Reads(AcquireKind), Values(Fields(m))) == Join(Parts(m))
  {
    TextFieldImage(m.transportPath);
    NumberImages(0, m.readMtu, 0, m.fd);
    NumberImages(0, m.writeMtu, 0, m.fd);
    LayoutsAgree(m);
    PartsImage(Fields(m), Parts(m));
  }

  /** Every message goes over the wire as the bytes of its fields, in the order of their list, numbers
      with the low byte first, strings and lists behind their 32-bit length. */
  lemma MessageBytes(m: Message)
    ensures EncodeMessage(m) == Join(Parts(m))
  {
    LayoutsAgree(m);
    match m
    case PlayerProps(_, _, _, _, _, _, _, _, _, _, _, _, _, _, _, _) => PlayerImage(m);
    case TransportProps(_, _, _, _, _, _, _, _, _) => TransportImage(m);
    case MediaItem(item) => ItemPartsImage(item);
    case AcquireResult(_, _, _, _) => AcquireImage(m);
    case ManagedObjects(_, _, _, _, _, _) => ManagedImage(m);
    case _ => SmallImage(m);
  }

  /** Any byte but zero is read as true. */
  lemma FlagBytes(data: seq<byte>, off: nat)
    requires off < |data|
    ensures Decode(Flag, data, off) == Some(Decoded(Truth(data[off] != 0), off + 1))
  {
  }
}
