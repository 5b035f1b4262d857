/** The two ends of the wire as the source runs them: an encoder appending to a byte buffer
    (native/include/glaze_meta.h) and a bounds-checked reader over a view of a larger buffer
    (`_Reader` in lib/src/ffi/codec.dart). Each is proved against the functions of WireCodec. */
module WireBuffer {
  import opened Wrappers
  import opened WireCodec

  lemma {:induction false} LittleEndianSnoc(bits: nat, width: nat)
    ensures LittleEndian(bits, width + 1) == LittleEndian(bits, width) + [bits / Pow256(width) % 256]
  {
    if width == 0 {
      assert bits / 1 == bits;
    } else {
      LittleEndianSnoc(bits / 256, width - 1);
      DivideTwice(bits, Pow256(width - 1));
    }
  }

  lemma DivideTwice(n: nat, p: nat)
    requires p >= 1
    ensures n / 256 / p == n / (256 * p)
  {
    var h, l := n / 256, n % 256;
    var q, m := h / p, h % p;
    assert n == (256 * p) * q + (256 * m + l) by {
      assert 256 * (p * q) == (256 * p) * q;
    }
    RemainderIsUnique(n, 256 * p, q, 256 * m + l);
    var d := 256 * p;
    assert d * (n / d - q) == 0;
    MultipleOf(d, n / d - q);
  }

  class ByteBuffer {
    var bytes: seq<byte>

    constructor ()
      ensures bytes == []
    {
      bytes := [];
    }

    method PushBack(b: byte)
      modifies this
      ensures bytes == old(bytes) + [b]
    {
      bytes := bytes + [b];
    }

    method WriteBytes(data: seq<byte>)
      modifies this
      ensures bytes == old(bytes) + data
    {
      bytes := bytes + data;
    }

    /** write_integer on the unsigned bits of a `width`-byte integer. */
    method WriteInteger(bits: nat, width: nat)
      modifies this
      ensures bytes == old(bytes) + LittleEndian(bits, width)
    {
      for i := 0 to width
        invariant bytes == old(bytes) + LittleEndian(bits, i)
      {
        LittleEndianSnoc(bits, i);
        PushBack(bits / Pow256(i) % 256);
      }
    }

    /** All the encode_field overloads and encode_struct. */
    method EncodeField(s: Schema, v: Value)
      requires Typed(s, v)
      modifies this
      ensures bytes == old(bytes) + Encode(s, v)
      decreases v, 1
    {
      match s
      case Unsigned(w) => WriteInteger(v.n, w);
      case Signed(w) => WriteInteger(TwosComplement(v.n, w), w);
      case Flag => PushBack(if v.b then 1 else 0);
      case Text => EncodeOctets(v.bytes);
      case Blob => EncodeOctets(v.bytes);
      case ListOf(e) => EncodeList(e, v.items);
      case Struct(fs) => EncodeMembers(fs, v.fields);
    }

    method EncodeOctets(data: seq<byte>)
      modifies this
      ensures bytes == old(bytes) + (Prefix(|data|) + data)
    {
      WriteInteger(|data| % UINT32_RANGE, 4);
      WriteBytes(data);
    }

    /** A list: the count, then each element. */
    method EncodeList(e: Schema, vs: seq<Value>)
      requires TypedItems(e, vs)
      modifies this
      ensures bytes == old(bytes) + (Prefix(|vs|) + EncodeItems(e, vs))
      decreases vs, 1
    {
      WriteInteger(|vs| % UINT32_RANGE, 4);
      EncodeElements(e, vs);
    }

    method EncodeElements(e: Schema, vs: seq<Value>)
      requires TypedItems(e, vs)
      modifies this
      ensures bytes == old(bytes) + EncodeItems(e, vs)
      decreases vs, 0
    {
      for i := 0 to |vs|
        invariant TypedItems(e, vs[i..])
        invariant bytes + EncodeItems(e, vs[i..]) == old(bytes) + EncodeItems(e, vs)
      {
        assert vs[i..][0] == vs[i] && vs[i..][1..] == vs[i + 1..];
        ghost var rest := EncodeItems(e, vs[i + 1..]);
        assert EncodeItems(e, vs[i..]) == Encode(e, vs[i]) + rest;
        assert bytes + (Encode(e, vs[i]) + rest) == bytes + Encode(e, vs[i]) + rest;
        EncodeField(e, vs[i]);
      }
      assert bytes + [] == bytes;
    }

    /** The fold over a struct's field tuple. */
    method EncodeMembers(fs: seq<Schema>, vs: seq<Value>)
      requires TypedFields(fs, vs)
      modifies this
      ensures bytes == old(bytes) + EncodeFields(fs, vs)
      decreases vs, 0
    {
      assert fs[0..] == fs && vs[0..] == vs;
      for i := 0 to |fs|
        invariant TypedFields(fs[i..], vs[i..])
        invariant bytes + EncodeFields(fs[i..], vs[i..]) == old(bytes) + EncodeFields(fs, vs)
      {
        assert vs[i..][1..] == vs[i + 1..] && fs[i..][1..] == fs[i + 1..];
        ghost var rest := EncodeFields(fs[i + 1..], vs[i + 1..]);
        assert EncodeFields(fs[i..], vs[i..]) == Encode(fs[i], vs[i]) + rest;
        assert bytes + (Encode(fs[i], vs[i]) + rest) == bytes + Encode(fs[i], vs[i]) + rest;
        EncodeField(fs[i], vs[i]);
      }
      assert bytes + [] == bytes;
    }
  }

  /** A Uint8List view: `length` bytes of `buffer` from `base`, read at a moving offset. The
      underlying ByteData reaches to the end of the buffer, so only CheckBounds keeps a read
      inside the view. */
  class Reader {
    const buffer: seq<byte>
    const base: nat
    const length: nat
    var offset: nat

    constructor (buffer: seq<byte>, base: nat, length: nat, offset: nat)
      requires base + length <= |buffer|
      ensures this.buffer == buffer && this.base == base && this.length == length && this.offset == offset
      ensures Valid()
    {
      this.buffer := buffer;
      this.base := base;
      this.length := length;
      this.offset := offset;
    }

    ghost predicate Valid() {
      base + length <= |buffer|
    }

    /** A copy of the viewed bytes. */
    ghost function View(): seq<byte>
      requires Valid()
    {
      buffer[base..base + length]
    }

    lemma ViewSlice(lo: nat, hi: nat)
      requires Valid() && lo <= hi <= length
      ensures buffer[base + lo..base + hi] == View()[lo..hi]
    {
      assert |buffer[base + lo..base + hi]| == |View()[lo..hi]|;
      forall i | 0 <= i < hi - lo
        ensures buffer[base + lo..base + hi][i] == View()[lo..hi][i]
      {
        assert View()[lo..hi][i] == View()[lo + i];
      }
    }

    predicate Overruns(needed: nat)
      reads this
    {
      offset + needed > length
    }

    method ReadUint(width: nat) returns (r: Option<nat>)
      requires Valid()
      modifies this`offset
      ensures r.None? <==> old(offset) + width > length
      ensures r.Some? ==> offset == old(offset) + width
                          && r.value == FromLittleEndian(View()[old(offset)..offset])
    {
      if Overruns(width) { return None; }
      ViewSlice(offset, offset + width);
      r := Some(FromLittleEndian(buffer[base + offset..base + offset + width]));
      offset := offset + width;
    }

    method ReadOctets() returns (r: Option<seq<byte>>)
      requires Valid()
      modifies this`offset
      ensures r.None? <==> DecodeOctets(View(), old(offset)).None?
      ensures r.Some? ==> DecodeOctets(View(), old(offset)) == Some(Decoded(Octets(r.value), offset))
    {
      var count := ReadUint(4);
      if count.None? || Overruns(count.value) { return None; }
      ViewSlice(offset, offset + count.value);
      r := Some(buffer[base + offset..base + offset + count.value]);
      offset := offset + count.value;
    }

    /** One read of the shape `s`. It equals the decode of a copy of the view, whatever buffer
        the view lies in and wherever it starts; a failed read yields no value. */
    method ReadValue(s: Schema) returns (r: Option<Value>)
      requires Valid()
      modifies this`offset
      ensures r.None? <==> Decode(s, View(), old(offset)).None?
      ensures r.Some? ==> Decode(s, View(), old(offset)) == Some(Decoded(r.value, offset))
      decreases s, 0
    {
      match s
      case Unsigned(w) =>
        var bits := ReadUint(w);
        r := if bits.None? then None else Some(Number(bits.value));
      case Signed(w) =>
        var bits := ReadUint(w);
        r := if bits.None? then None else Some(Number(FromTwosComplement(bits.value, w)));
      case Flag =>
        if Overruns(1) { return None; }
        r := Some(Truth(buffer[base + offset] != 0));
        offset := offset + 1;
      case Text =>
        var text := ReadOctets();
        r := if text.None? then None else Some(Octets(text.value));
      case Blob =>
        var blob := ReadOctets();
        r := if blob.None? then None else Some(Octets(blob.value));
      case ListOf(e) => r := ReadList(e);
      case Struct(fs) => r := ReadStruct(fs);
    }

    method ReadList(e: Schema) returns (r: Option<Value>)
      requires Valid()
      modifies this`offset
      ensures r.None? <==> Decode(ListOf(e), View(), old(offset)).None?
      ensures r.Some? ==> Decode(ListOf(e), View(), old(offset)) == Some(Decoded(r.value, offset))
      decreases e, 2
    {
      var count := ReadUint(4);
      if count.None? { return None; }
      var items := ReadItems(e, count.value);
      r := if items.None? then None else Some(Items(items.value));
    }

    /** List.generate over the element reads. */
    method ReadItems(e: Schema, count: nat) returns (r: Option<seq<Value>>)
      requires Valid()
      modifies this`offset
      ensures r.None? <==> DecodeItems(e, count, View(), old(offset)).None?
      ensures r.Some? ==> DecodeItems(e, count, View(), old(offset)) == Some(Decoded(r.value, offset))
      decreases e, 1
    {
      var items: seq<Value> := [];
      ghost var view, all := View(), DecodeItems(e, count, View(), offset);
      AfterNothing(all);
      for i := 0 to count
        invariant |items| == i
        invariant all == After(items, DecodeItems(e, count - i, view, offset))
      {
        ghost var rest := DecodeItems(e, count - i, view, offset);
        var item := ReadValue(e);
        if item.None? {
          assert rest == None;
          return None;
        }
        assert rest == After([item.value], DecodeItems(e, count - i - 1, view, offset));
        AfterOneMore(items, item.value, DecodeItems(e, count - i - 1, view, offset));
        items := items + [item.value];
      }
      assert DecodeItems(e, 0, view, offset) == Some(Decoded([], offset));
      assert items + [] == items;
      r := Some(items);
    }

    method ReadStruct(fs: seq<Schema>) returns (r: Option<Value>)
      requires Valid()
      modifies this`offset
      ensures r.None? <==> Decode(Struct(fs), View(), old(offset)).None?
      ensures r.Some? ==> Decode(Struct(fs), View(), old(offset)) == Some(Decoded(r.value, offset))
      decreases fs, 2
    {
      var fields := ReadFields(fs);
      r := if fields.None? then None else Some(Record(fields.value));
    }

    /** The constructor arguments of a `_decode...` function, in order. */
    method ReadFields(fs: seq<Schema>) returns (r: Option<seq<Value>>)
      requires Valid()
      modifies this`offset
      ensures r.None? <==> DecodeFields(fs, View(), old(offset)).None?
      ensures r.Some? ==> DecodeFields(fs, View(), old(offset)) == Some(Decoded(r.value, offset))
      decreases fs, 1
    {
      var fields: seq<Value> := [];
      ghost var view, all := View(), DecodeFields(fs, View(), offset);
      AfterNothing(all);
      assert fs[0..] == fs;
      for i := 0 to |fs|
        invariant |fields| == i
        invariant all == After(fields, DecodeFields(fs[i..], view, offset))
      {
        ghost var rest := DecodeFields(fs[i..], view, offset);
        assert fs[i..][1..] == fs[i + 1..] && fs[i..][0] == fs[i];
        var field := ReadValue(fs[i]);
        if field.None? {
          assert rest == None;
          return None;
        }
        assert rest == After([field.value], DecodeFields(fs[i + 1..], view, offset));
        AfterOneMore(fields, field.value, DecodeFields(fs[i + 1..], view, offset));
        fields := fields + [field.value];
      }
      assert DecodeFields([], view, offset) == Some(Decoded([], offset));
      assert fs[|fs|..] == [] && fields + [] == fields;
      r := Some(fields);
    }
  }

  /** The values read so far followed by what the rest decodes to. */
  ghost function After(done: seq<Value>, rest: Option<Decoded<seq<Value>>>): Option<Decoded<seq<Value>>> {
    if rest.None? then None else Some(Decoded(done + rest.value.value, rest.value.next))
  }

  lemma AfterNothing(rest: Option<Decoded<seq<Value>>>)
    ensures After([], rest) == rest
  {
    if rest.Some? { assert [] + rest.value.value == rest.value.value; }
  }

  lemma AfterOneMore(done: seq<Value>, v: Value, rest: Option<Decoded<seq<Value>>>)
    ensures After(done + [v], rest) == After(done, After([v], rest))
  {
    if rest.Some? { assert done + [v] + rest.value.value == done + ([v] + rest.value.value); }
  }
}
