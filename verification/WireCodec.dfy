/** The wire format shared by the C++ encoder (native/include/glaze_meta.h) and the Dart
    decoder (lib/src/ffi/codec.dart), as functions on byte sequences.

    A Schema is what a `glz::meta<T>::fields` list says about T. Length and count prefixes are
    cast to uint32 by the encoder, so the encoder is defined for values of any size and the
    round trip is stated for those whose sizes fit the prefix. */
module WireCodec {
  import opened Wrappers

  type byte = n: int | 0 <= n < 256

  datatype Schema =
    | Unsigned(width: nat)
    | Signed(width: nat)
    | Flag
    | Text
    | Blob
    | ListOf(element: Schema)
    | Struct(fields: seq<Schema>)

  datatype Value =
    | Number(n: int)
    | Truth(b: bool)
    | Octets(bytes: seq<byte>)
    | Items(items: seq<Value>)
    | Record(fields: seq<Value>)

  /** A decoded value and the offset just after it. */
  datatype Decoded<+T> = Decoded(value: T, next: nat)

  // ---------------------------------------------------------------- integers

  function Pow256(width: nat): (p: nat)
    ensures p >= 1
  {
    if width == 0 then 1 else 256 * Pow256(width - 1)
  }

  const UINT32_RANGE := 0x1_0000_0000

  function LittleEndian(bits: nat, width: nat): (bytes: seq<byte>)
    ensures |bytes| == width
  {
    if width == 0 then [] else [bits % 256] + LittleEndian(bits / 256, width - 1)
  }

  function FromLittleEndian(bytes: seq<byte>): (bits: nat)
    ensures bits < Pow256(|bytes|)
  {
    if bytes == [] then 0 else bytes[0] + 256 * FromLittleEndian(bytes[1..])
  }

  /** The encoder keeps the low `width` bytes; reading them back is reduction modulo 256^width. */
  lemma {:induction false} LittleEndianRoundTrip(bits: nat, width: nat)
    ensures FromLittleEndian(LittleEndian(bits, width)) == bits % Pow256(width)
  {
    if width == 0 {
      assert bits % 1 == 0;
    } else {
      var low, rest := bits % 256, LittleEndian(bits / 256, width - 1);
      LittleEndianRoundTrip(bits / 256, width - 1);
      assert LittleEndian(bits, width)[1..] == rest;
      SplitModulo(bits, Pow256(width - 1));
    }
  }

  lemma SplitModulo(bits: nat, p: nat)
    requires p >= 1
    ensures bits % (256 * p) == bits % 256 + 256 * ((bits / 256) % p)
  {
    var h, l := bits / 256, bits % 256;
    var q, m := h / p, h % p;
    assert h == q * p + m;
    assert bits == (256 * p) * q + (l + 256 * m) by {
      assert bits == 256 * h + l;
      assert 256 * h == 256 * (q * p) + 256 * m;
      assert 256 * (q * p) == (256 * p) * q;
    }
    assert 0 <= l + 256 * m < 256 * p;
    RemainderIsUnique(bits, 256 * p, q, l + 256 * m);
  }

  lemma RemainderIsUnique(n: int, d: int, q: int, r: int)
    requires d > 0 && n == d * q + r && 0 <= r < d
    ensures n % d == r
  {
    var q', r' := n / d, n % d;
    assert d * (q - q') == r' - r;
    MultipleOf(d, q - q');
  }

  lemma MultipleOf(d: int, k: int)
    requires d > 0
    ensures k >= 1 ==> d * k >= d
    ensures k <= -1 ==> d * k <= -d
  {
    assert d * k == d * (k - 1) + d == d * (k + 1) - d;
  }

  /** An integer that fits its width comes back unchanged. */
  lemma IntegerRoundTrip(bits: nat, width: nat)
    requires bits < Pow256(width)
    ensures FromLittleEndian(LittleEndian(bits, width)) == bits
  {
    LittleEndianRoundTrip(bits, width);
  }

  /** std::bit_cast to the unsigned type of the same width. */
  function TwosComplement(n: int, width: nat): (bits: nat)
    requires 0 <= 2 * n + Pow256(width) < 2 * Pow256(width)
    ensures bits < Pow256(width)
  {
    if n < 0 then n + Pow256(width) else n
  }

  function FromTwosComplement(bits: nat, width: nat): int {
    if 2 * bits >= Pow256(width) then bits - Pow256(width) else bits
  }

  // ---------------------------------------------------------------- typing

  /** The value is one the C++ field type can hold. */
  ghost predicate Typed(s: Schema, v: Value)
    decreases v
  {
    match s
    case Unsigned(w) => v.Number? && 0 <= v.n < Pow256(w)
    case Signed(w) => v.Number? && 0 <= 2 * v.n + Pow256(w) < 2 * Pow256(w)
    case Flag => v.Truth?
    case Text => v.Octets?
    case Blob => v.Octets?
    case ListOf(e) => v.Items? && TypedItems(e, v.items)
    case Struct(fs) => v.Record? && TypedFields(fs, v.fields)
  }

  ghost predicate TypedItems(e: Schema, vs: seq<Value>)
    decreases vs
  {
    vs == [] || (Typed(e, vs[0]) && TypedItems(e, vs[1..]))
  }

  ghost predicate TypedFields(fs: seq<Schema>, vs: seq<Value>)
    decreases vs
  {
    |fs| == |vs| && (vs == [] || (Typed(fs[0], vs[0]) && TypedFields(fs[1..], vs[1..])))
  }

  /** Every string, blob and list inside the value is shorter than 2^32. */
  ghost predicate Short(v: Value)
    decreases v
  {
    match v
    case Number(_) => true
    case Truth(_) => true
    case Octets(bs) => |bs| < UINT32_RANGE
    case Items(vs) => |vs| < UINT32_RANGE && ShortAll(vs)
    case Record(vs) => ShortAll(vs)
  }

  ghost predicate ShortAll(vs: seq<Value>)
    decreases vs
  {
    vs == [] || (Short(vs[0]) && ShortAll(vs[1..]))
  }

  // ---------------------------------------------------------------- encoder

  function Prefix(size: nat): (bytes: seq<byte>)
    ensures |bytes| == 4
  {
    LittleEndian(size % UINT32_RANGE, 4)
  }

  function Encode(s: Schema, v: Value): seq<byte>
    requires Typed(s, v)
    decreases v
  {
    match s
    case Unsigned(w) => LittleEndian(v.n, w)
    case Signed(w) => LittleEndian(TwosComplement(v.n, w), w)
    case Flag => [if v.b then 1 else 0]
    case Text => Prefix(|v.bytes|) + v.bytes
    case Blob => Prefix(|v.bytes|) + v.bytes
    case ListOf(e) => Prefix(|v.items|) + EncodeItems(e, v.items)
    case Struct(fs) => EncodeFields(fs, v.fields)
  }

  function EncodeItems(e: Schema, vs: seq<Value>): seq<byte>
    requires TypedItems(e, vs)
    decreases vs
  {
    if vs == [] then [] else Encode(e, vs[0]) + EncodeItems(e, vs[1..])
  }

  function EncodeFields(fs: seq<Schema>, vs: seq<Value>): seq<byte>
    requires TypedFields(fs, vs)
    decreases vs
  {
    if vs == [] then [] else Encode(fs[0], vs[0]) + EncodeFields(fs[1..], vs[1..])
  }

  // ---------------------------------------------------------------- decoder

  /** readUint32: the bounds check, then four bytes. */
  function DecodeCount(data: seq<byte>, off: nat): (r: Option<nat>)
    ensures r.Some? <==> off + 4 <= |data|
    ensures r.Some? ==> r.value < UINT32_RANGE
  {
    if off + 4 > |data| then None
    else
      assert Pow256(4) == UINT32_RANGE;
      Some(FromLittleEndian(data[off..off + 4]))
  }

  function DecodeOctets(data: seq<byte>, off: nat): Option<Decoded<Value>> {
    var count := DecodeCount(data, off);
    if count.None? || off + 4 + count.value > |data| then None
    else Some(Decoded(Octets(data[off + 4..off + 4 + count.value]), off + 4 + count.value))
  }

  function Decode(s: Schema, data: seq<byte>, off: nat): Option<Decoded<Value>>
    decreases s, 0, 0
  {
    match s
    case Unsigned(w) =>
      if off + w > |data| then None
      else Some(Decoded(Number(FromLittleEndian(data[off..off + w])), off + w))
    case Signed(w) =>
      if off + w > |data| then None
      else Some(Decoded(Number(FromTwosComplement(FromLittleEndian(data[off..off + w]), w)), off + w))
    case Flag =>
      if off + 1 > |data| then None else Some(Decoded(Truth(data[off] != 0), off + 1))
    case Text => DecodeOctets(data, off)
    case Blob => DecodeOctets(data, off)
    case ListOf(e) =>
      var count := DecodeCount(data, off);
      if count.None? then None
      else
        var items := DecodeItems(e, count.value, data, off + 4);
        if items.None? then None else Some(Decoded(Items(items.value.value), items.value.next))
    case Struct(fs) =>
      var fields := DecodeFields(fs, data, off);
      if fields.None? then None else Some(Decoded(Record(fields.value.value), fields.value.next))
  }

  function DecodeItems(e: Schema, count: nat, data: seq<byte>, off: nat): Option<Decoded<seq<Value>>>
    decreases e, 1, count
  {
    if count == 0 then Some(Decoded([], off))
    else
      var head := Decode(e, data, off);
      if head.None? then None
      else
        var tail := DecodeItems(e, count - 1, data, head.value.next);
        if tail.None? then None
        else Some(Decoded([head.value.value] + tail.value.value, tail.value.next))
  }

  function DecodeFields(fs: seq<Schema>, data: seq<byte>, off: nat): Option<Decoded<seq<Value>>>
    decreases fs, 0, 0
  {
    if fs == [] then Some(Decoded([], off))
    else
      var head := Decode(fs[0], data, off);
      if head.None? then None
      else
        var tail := DecodeFields(fs[1..], data, head.value.next);
        if tail.None? then None
        else Some(Decoded([head.value.value] + tail.value.value, tail.value.next))
  }

  // ---------------------------------------------------------------- round trip

  /** `bytes` stands in `data` at `off`. */
  predicate At(data: seq<byte>, off: nat, bytes: seq<byte>) {
    off + |bytes| <= |data| && data[off..off + |bytes|] == bytes
  }

  lemma AtSplit(data: seq<byte>, off: nat, a: seq<byte>, b: seq<byte>)
    requires At(data, off, a + b)
    ensures At(data, off, a) && At(data, off + |a|, b)
  {
    var whole := data[off..off + |a + b|];
    assert whole[..|a|] == a && whole[|a|..] == b;
    assert data[off..off + |a|] == whole[..|a|];
    assert data[off + |a|..off + |a| + |b|] == whole[|a|..];
  }

  lemma PrefixRoundTrip(data: seq<byte>, off: nat, size: nat)
    requires At(data, off, Prefix(size))
    ensures DecodeCount(data, off) == Some(size % UINT32_RANGE)
  {
    assert Pow256(4) == UINT32_RANGE;
    IntegerRoundTrip(size % UINT32_RANGE, 4);
  }

  lemma OctetsRoundTrip(bytes: seq<byte>, data: seq<byte>, off: nat)
    requires |bytes| < UINT32_RANGE
    requires At(data, off, Prefix(|bytes|) + bytes)
    ensures DecodeOctets(data, off) == Some(Decoded(Octets(bytes), off + 4 + |bytes|))
  {
    AtSplit(data, off, Prefix(|bytes|), bytes);
    PrefixRoundTrip(data, off, |bytes|);
  }

  lemma ScalarRoundTrip(s: Schema, v: Value, data: seq<byte>, off: nat)
    requires !s.ListOf? && !s.Struct? && Typed(s, v) && Short(v)
    requires At(data, off, Encode(s, v))
    ensures Decode(s, data, off) == Some(Decoded(v, off + |Encode(s, v)|))
  {
    if s.Unsigned? || s.Signed? {
      IntegerScalarRoundTrip(s, v, data, off);
    } else if s.Flag? {
      assert data[off..off + 1][0] == data[off];
    } else {
      OctetsRoundTrip(v.bytes, data, off);
    }
  }

  lemma IntegerScalarRoundTrip(s: Schema, v: Value, data: seq<byte>, off: nat)
    requires (s.Unsigned? || s.Signed?) && Typed(s, v)
    requires At(data, off, Encode(s, v))
    ensures Decode(s, data, off) == Some(Decoded(v, off + |Encode(s, v)|))
  {
    match s
    case Unsigned(w) => IntegerRoundTrip(v.n, w);
    case Signed(w) => IntegerRoundTrip(TwosComplement(v.n, w), w);
  }

  /** Decoding where an encoding stands returns the value and consumes exactly that encoding,
      whatever comes before and after it. */
  lemma {:induction false} RoundTrip(s: Schema, v: Value, data: seq<byte>, off: nat)
    requires Typed(s, v) && Short(v)
    requires At(data, off, Encode(s, v))
    ensures Decode(s, data, off) == Some(Decoded(v, off + |Encode(s, v)|))
    decreases v, 3
  {
    match s
    case ListOf(e) => ListRoundTrip(e, v.items, data, off);
    case Struct(fs) => FieldsRoundTrip(fs, v.fields, data, off);
    case _ => ScalarRoundTrip(s, v, data, off);
  }

  lemma {:induction false} ListRoundTrip(e: Schema, vs: seq<Value>, data: seq<byte>, off: nat)
    requires TypedItems(e, vs) && ShortAll(vs) && |vs| < UINT32_RANGE
    requires At(data, off, Prefix(|vs|) + EncodeItems(e, vs))
    ensures DecodeCount(data, off) == Some(|vs|)
    ensures DecodeItems(e, |vs|, data, off + 4) == Some(Decoded(vs, off + 4 + |EncodeItems(e, vs)|))
    decreases vs, 2
  {
    CountRoundTrip(data, off, |vs|, EncodeItems(e, vs));
    ItemsRoundTrip(e, vs, data, off + 4);
  }

  lemma CountRoundTrip(data: seq<byte>, off: nat, n: nat, items: seq<byte>)
    requires n < UINT32_RANGE && At(data, off, Prefix(n) + items)
    ensures DecodeCount(data, off) == Some(n) && At(data, off + 4, items)
  {
    AtSplit(data, off, Prefix(n), items);
    PrefixRoundTrip(data, off, n);
  }

  /** The first element and the rest stand one behind the other. */
  lemma ItemsAt(e: Schema, vs: seq<Value>, data: seq<byte>, off: nat)
    requires vs != [] && TypedItems(e, vs) && ShortAll(vs) && At(data, off, EncodeItems(e, vs))
    ensures Typed(e, vs[0]) && Short(vs[0]) && TypedItems(e, vs[1..]) && ShortAll(vs[1..])
    ensures At(data, off, Encode(e, vs[0])) && At(data, off + |Encode(e, vs[0])|, EncodeItems(e, vs[1..]))
    ensures |EncodeItems(e, vs)| == |Encode(e, vs[0])| + |EncodeItems(e, vs[1..])|
  {
    AtSplit(data, off, Encode(e, vs[0]), EncodeItems(e, vs[1..]));
  }

  lemma DecodeItemsCons(e: Schema, vs: seq<Value>, data: seq<byte>, off: nat, mid: nat, end: nat)
    requires vs != []
    requires Decode(e, data, off) == Some(Decoded(vs[0], mid))
    requires DecodeItems(e, |vs| - 1, data, mid) == Some(Decoded(vs[1..], end))
    ensures DecodeItems(e, |vs|, data, off) == Some(Decoded(vs, end))
  {
    assert vs == [vs[0]] + vs[1..];
  }

  lemma FirstItemRoundTrip(e: Schema, vs: seq<Value>, data: seq<byte>, off: nat)
    requires vs != [] && TypedItems(e, vs) && ShortAll(vs) && At(data, off, EncodeItems(e, vs))
    ensures Decode(e, data, off) == Some(Decoded(vs[0], off + |Encode(e, vs[0])|))
    decreases vs, 0
  {
    ItemsAt(e, vs, data, off);
    RoundTrip(e, vs[0], data, off);
  }

  lemma OtherItemsRoundTrip(e: Schema, vs: seq<Value>, data: seq<byte>, off: nat)
    requires vs != [] && TypedItems(e, vs) && ShortAll(vs) && At(data, off, EncodeItems(e, vs))
    ensures var mid, end := off + |Encode(e, vs[0])|, off + |EncodeItems(e, vs)|;
      DecodeItems(e, |vs| - 1, data, mid) == Some(Decoded(vs[1..], end))
    decreases vs, 0
  {
    ItemsAt(e, vs, data, off);
    ItemsRoundTrip(e, vs[1..], data, off + |Encode(e, vs[0])|);
  }

  lemma {:induction false} ItemsRoundTrip(e: Schema, vs: seq<Value>, data: seq<byte>, off: nat)
    requires TypedItems(e, vs) && ShortAll(vs)
    requires At(data, off, EncodeItems(e, vs))
    ensures DecodeItems(e, |vs|, data, off) == Some(Decoded(vs, off + |EncodeItems(e, vs)|))
    decreases vs, 1
  {
    if vs == [] {
    } else {
      FirstItemRoundTrip(e, vs, data, off);
      OtherItemsRoundTrip(e, vs, data, off);
      DecodeItemsCons(e, vs, data, off, off + |Encode(e, vs[0])|, off + |EncodeItems(e, vs)|);
    }
  }

  lemma {:induction false} FieldsRoundTrip(fs: seq<Schema>, vs: seq<Value>, data: seq<byte>, off: nat)
    requires TypedFields(fs, vs) && ShortAll(vs)
    requires At(data, off, EncodeFields(fs, vs))
    ensures DecodeFields(fs, data, off) == Some(Decoded(vs, off + |EncodeFields(fs, vs)|))
    decreases vs, 0
  {
    if vs == [] {
    } else {
      var head := Encode(fs[0], vs[0]);
      AtSplit(data, off, head, EncodeFields(fs[1..], vs[1..]));
      RoundTrip(fs[0], vs[0], data, off);
      FieldsRoundTrip(fs[1..], vs[1..], data, off + |head|);
      assert vs == [vs[0]] + vs[1..];
    }
  }

  /** The uint32 cast is what bounds the round trip: a string comes back exactly when its length
      fits the prefix. */
  lemma TextRoundTripsExactlyWhenShort(bytes: seq<byte>)
    ensures Decode(Text, Encode(Text, Octets(bytes)), 0) == Some(Decoded(Octets(bytes), 4 + |bytes|))
      <==> |bytes| < UINT32_RANGE
  {
    var data := Encode(Text, Octets(bytes));
    assert data[0..|data|] == data;
    AtSplit(data, 0, Prefix(|bytes|), bytes);
    PrefixRoundTrip(data, 0, |bytes|);
    if |bytes| < UINT32_RANGE {
      OctetsRoundTrip(bytes, data, 0);
    }
  }

  /** The same for every schema: a value comes back exactly when every string and list in it fits
      its prefix. */
  lemma RoundTripsExactlyWhenShort(s: Schema, v: Value)
    requires Typed(s, v)
    ensures Decode(s, Encode(s, v), 0) == Some(Decoded(v, |Encode(s, v)|)) <==> Short(v)
  {
    var data := Encode(s, v);
    assert data[0..|data|] == data;
    DecodedIsTyped(s, data, 0);
    if Short(v) { RoundTrip(s, v, data, 0); }
  }

  // ---------------------------------------------------------------- safety

  /** On arbitrary bytes: a successful decode ends inside the view and never moves backwards. */
  lemma {:induction false} DecodeStaysInside(s: Schema, data: seq<byte>, off: nat)
    requires off <= |data|
    ensures var r := Decode(s, data, off); r.Some? ==> off <= r.value.next <= |data|
    decreases s, 0, 0
  {
    match s
    case Unsigned(_) =>
    case Signed(_) =>
    case Flag =>
    case Text =>
    case Blob =>
    case ListOf(e) =>
      var count := DecodeCount(data, off);
      if count.Some? {
        ItemsStayInside(e, count.value, data, off + 4);
      }
    case Struct(fs) => FieldsStayInside(fs, data, off);
  }

  lemma {:induction false} ItemsStayInside(e: Schema, count: nat, data: seq<byte>, off: nat)
    requires off <= |data|
    ensures var r := DecodeItems(e, count, data, off); r.Some? ==> off <= r.value.next <= |data|
    decreases e, 1, count
  {
    if count > 0 {
      DecodeStaysInside(e, data, off);
      var head := Decode(e, data, off);
      if head.Some? {
        ItemsStayInside(e, count - 1, data, head.value.next);
      }
    }
  }

  lemma {:induction false} FieldsStayInside(fs: seq<Schema>, data: seq<byte>, off: nat)
    requires off <= |data|
    ensures var r := DecodeFields(fs, data, off); r.Some? ==> off <= r.value.next <= |data|
    decreases fs, 0, 0
  {
    if fs != [] {
      DecodeStaysInside(fs[0], data, off);
      var head := Decode(fs[0], data, off);
      if head.Some? {
        FieldsStayInside(fs[1..], data, head.value.next);
      }
    }
  }

  /** Bytes after the ones a decode read do not influence it. */
  lemma {:induction false} DecodeIgnoresSuffix(s: Schema, data: seq<byte>, more: seq<byte>, off: nat)
    requires off <= |data|
    ensures var r := Decode(s, data, off); r.Some? ==> Decode(s, data + more, off) == r
    decreases s, 0, 0
  {
    var wide := data + more;
    match s
    case Unsigned(w) =>
      if off + w <= |data| { assert wide[off..off + w] == data[off..off + w]; }
    case Signed(w) =>
      if off + w <= |data| { assert wide[off..off + w] == data[off..off + w]; }
    case Flag =>
    case Text => OctetsIgnoreSuffix(data, more, off);
    case Blob => OctetsIgnoreSuffix(data, more, off);
    case ListOf(e) =>
      CountIgnoresSuffix(data, more, off);
      var count := DecodeCount(data, off);
      if count.Some? {
        ItemsIgnoreSuffix(e, count.value, data, more, off + 4);
      }
    case Struct(fs) => FieldsIgnoreSuffix(fs, data, more, off);
  }

  lemma CountIgnoresSuffix(data: seq<byte>, more: seq<byte>, off: nat)
    ensures var r := DecodeCount(data, off); r.Some? ==> DecodeCount(data + more, off) == r
  {
    if off + 4 <= |data| {
      assert (data + more)[off..off + 4] == data[off..off + 4];
    }
  }

  lemma OctetsIgnoreSuffix(data: seq<byte>, more: seq<byte>, off: nat)
    ensures var r := DecodeOctets(data, off); r.Some? ==> DecodeOctets(data + more, off) == r
  {
    CountIgnoresSuffix(data, more, off);
    var count := DecodeCount(data, off);
    if count.Some? && off + 4 + count.value <= |data| {
      assert (data + more)[off + 4..off + 4 + count.value] == data[off + 4..off + 4 + count.value];
    }
  }

  lemma {:induction false} ItemsIgnoreSuffix(e: Schema, count: nat, data: seq<byte>, more: seq<byte>, off: nat)
    requires off <= |data|
    ensures var r := DecodeItems(e, count, data, off); r.Some? ==> DecodeItems(e, count, data + more, off) == r
    decreases e, 1, count
  {
    if count > 0 {
      DecodeIgnoresSuffix(e, data, more, off);
      DecodeStaysInside(e, data, off);
      var head := Decode(e, data, off);
      if head.Some? {
        ItemsIgnoreSuffix(e, count - 1, data, more, head.value.next);
      }
    }
  }

  lemma {:induction false} FieldsIgnoreSuffix(fs: seq<Schema>, data: seq<byte>, more: seq<byte>, off: nat)
    requires off <= |data|
    ensures var r := DecodeFields(fs, data, off); r.Some? ==> DecodeFields(fs, data + more, off) == r
    decreases fs, 0, 0
  {
    if fs != [] {
      DecodeIgnoresSuffix(fs[0], data, more, off);
      DecodeStaysInside(fs[0], data, off);
      var head := Decode(fs[0], data, off);
      if head.Some? {
        FieldsIgnoreSuffix(fs[1..], data, more, head.value.next);
      }
    }
  }

  /** A truncated message is never mistaken for a shorter one: no strict prefix of an encoding
      decodes. */
  lemma StrictPrefixFails(s: Schema, v: Value, n: nat)
    requires Typed(s, v) && Short(v)
    requires n < |Encode(s, v)|
    ensures Decode(s, Encode(s, v)[..n], 0) == None
  {
    var whole := Encode(s, v);
    assert whole == whole[..n] + whole[n..];
    assert whole[0..|whole|] == whole;
    RoundTrip(s, v, whole, 0);
    DecodeIgnoresSuffix(s, whole[..n], whole[n..], 0);
    DecodeStaysInside(s, whole[..n], 0);
  }

  /** What was decoded is a value of its type with sizes the prefix can carry, so it can be encoded again. */
  lemma {:induction false} DecodedIsTyped(s: Schema, data: seq<byte>, off: nat)
    ensures var r := Decode(s, data, off); r.Some? ==> Typed(s, r.value.value) && Short(r.value.value)
    decreases s, 0, 0
  {
    match s
    case ListOf(e) =>
      var count := DecodeCount(data, off);
      if count.Some? {
        DecodedItemsAreTyped(e, count.value, data, off + 4);
      }
    case Struct(fs) => DecodedFieldsAreTyped(fs, data, off);
    case _ => DecodedScalarIsTyped(s, data, off);
  }

  lemma SignedRange(bits: nat, width: nat)
    requires bits < Pow256(width)
    ensures 0 <= 2 * FromTwosComplement(bits, width) + Pow256(width) < 2 * Pow256(width)
  {
  }

  lemma DecodedScalarIsTyped(s: Schema, data: seq<byte>, off: nat)
    requires !s.ListOf? && !s.Struct?
    ensures var r := Decode(s, data, off); r.Some? ==> Typed(s, r.value.value) && Short(r.value.value)
  {
    match s
    case Unsigned(w) => assert Decode(s, data, off).Some? ==> off + w <= |data|;
    case Signed(w) =>
      if off + w <= |data| { SignedRange(FromLittleEndian(data[off..off + w]), w); }
    case Flag =>
    case Text => DecodedOctetsAreShort(data, off);
    case Blob => DecodedOctetsAreShort(data, off);
  }

  lemma DecodedOctetsAreShort(data: seq<byte>, off: nat)
    ensures var r := DecodeOctets(data, off); r.Some? ==> r.value.value.Octets? && |r.value.value.bytes| < UINT32_RANGE
  {
  }

  lemma {:induction false} DecodedItemsAreTyped(e: Schema, count: nat, data: seq<byte>, off: nat)
    ensures var r := DecodeItems(e, count, data, off);
      r.Some? ==> |r.value.value| == count && TypedItems(e, r.value.value) && ShortAll(r.value.value)
    decreases e, 1, count
  {
    if count > 0 {
      DecodedIsTyped(e, data, off);
      var head := Decode(e, data, off);
      if head.Some? {
        DecodedItemsAreTyped(e, count - 1, data, head.value.next);
        var tail := DecodeItems(e, count - 1, data, head.value.next);
        if tail.Some? {
          assert ([head.value.value] + tail.value.value)[1..] == tail.value.value;
        }
      }
    }
  }

  lemma {:induction false} DecodedFieldsAreTyped(fs: seq<Schema>, data: seq<byte>, off: nat)
    ensures var r := DecodeFields(fs, data, off);
      r.Some? ==> TypedFields(fs, r.value.value) && ShortAll(r.value.value)
    decreases fs, 0, 0
  {
    if fs != [] {
      DecodedIsTyped(fs[0], data, off);
      var head := Decode(fs[0], data, off);
      if head.Some? {
        DecodedFieldsAreTyped(fs[1..], data, head.value.next);
        var tail := DecodeFields(fs[1..], data, head.value.next);
        if tail.Some? {
          assert ([head.value.value] + tail.value.value)[1..] == tail.value.value;
        }
      }
    }
  }
}
