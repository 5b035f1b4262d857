/** A Dart proxy as the source keeps it (lib/src/bluez_media_player.dart, lib/src/bluez_media_transport.dart
    and their siblings): a cached snapshot, a revision, a disposed flag and a stream. The chain of
    comparisons in each updateProps is one loop over the proxy kind's tracked fields. */
module MediaProxies {
  import opened WireCodec
  import opened Messages
  import opened ProxyRefresh

  /** _sameProperties, and likewise _sameInts: lists compared by value. */
  method SameElements<T(==)>(left: seq<T>, right: seq<T>) returns (same: bool)
    ensures same <==> left == right
  {
    if |left| != |right| { return false; }
    for i := 0 to |left|
      invariant left[..i] == right[..i]
    {
      if left[i] != right[i] { return false; }
    }
    same := true;
  }

  const IMG_HANDLE: Text := [0x49, 0x6D, 0x67, 0x48, 0x61, 0x6E, 0x64, 0x6C, 0x65]

  /** The imageHandle getter: the first value under the key, or the empty string. */
  method ImageHandle(track: seq<Property>) returns (handle: Text)
    ensures (forall p | p in track :: p.key != IMG_HANDLE) ==> handle == []
    ensures forall i | 0 <= i < |track| && track[i].key == IMG_HANDLE
                       && (forall j | 0 <= j < i :: track[j].key != IMG_HANDLE) :: handle == track[i].value
  {
    for i := 0 to |track|
      invariant forall j | 0 <= j < i :: track[j].key != IMG_HANDLE
    {
      if track[i].key == IMG_HANDLE { return track[i].value; }
    }
    handle := [];
  }

  lemma ChangedSnoc(tracked: Track, v: seq<Value>, w: seq<Value>, i: nat)
    requires Within(tracked, |v|) && |v| == |w| && i < |tracked|
    ensures Changed(tracked[..i + 1], v, w) ==
      Changed(tracked[..i], v, w) + if w[tracked[i].1] != v[tracked[i].1] then [tracked[i].0] else []
  {
    assert tracked[..i + 1][..i] == tracked[..i];
  }

  class MediaProxy {
    const kind: Kind
    var props: Message
    var revision: nat
    var disposed: bool
    /** What the propertiesChanged stream has carried. */
    var emitted: seq<seq<string>>
    ghost var shown: seq<Message>

    ghost predicate Valid()
      reads this
    {
      WellFormed(Abs(), kind) && Current(Abs()) == props
    }

    ghost function Abs(): Proxy
      reads this
    {
      Proxy(revision, disposed, shown, emitted)
    }

    constructor (first: Message)
      ensures Valid() && kind == KindOf(first) && Abs() == Start(first)
    {
      kind, props, revision, disposed, emitted, shown := KindOf(first), first, 0, false, [], [first];
    }

    /** refresh up to its call, which throws on a disposed proxy. */
    method BeginRefresh() returns (asked: nat, ok: bool)
      requires Valid()
      modifies this`revision
      ensures Valid() && Abs() == Request(old(Abs())) && asked == revision && ok == !disposed
    {
      revision := revision + 1;
      asked, ok := revision, !disposed;
    }

    /** refresh from the reply on; it returns the snapshot the proxy has then. */
    method CompleteRefresh(asked: nat, reply: Message) returns (r: Message)
      requires Valid() && KindOf(reply) == kind
      modifies this
      ensures Valid() && Abs() == Answer(old(Abs()), asked, reply) && r == Current(Abs())
    {
      if asked == revision { UpdateProps(reply); }
      r := props;
    }

    method UpdateProps(m: Message)
      requires Valid() && KindOf(m) == kind
      modifies this
      ensures Valid() && Abs() == Update(old(Abs()), m)
    {
      if disposed { return; }
      StepRaises(Abs(), Updates(m), kind);
      revision := revision + 1;
      var changed := Compare(m);
      props := m;
      if changed != [] { emitted := emitted + [changed]; }
      shown := shown + [m];
      assert Abs() == Update(old(Abs()), m);
    }

    method Compare(m: Message) returns (changed: seq<string>)
      requires KindOf(m) == kind && KindOf(props) == kind
      ensures changed == Announced(props, m)
    {
      var tracked, v, w := Tracked(kind), Contents(props), Contents(m);
      LengthsAgree(props);
      LengthsAgree(m);
      TrackedWithin(kind);
      changed := [];
      for i := 0 to |tracked|
        invariant changed == Changed(tracked[..i], v, w)
      {
        ChangedSnoc(tracked, v, w, i);
        if w[tracked[i].1] != v[tracked[i].1] { changed := changed + [tracked[i].0]; }
      }
      assert tracked[..|tracked|] == tracked;
    }

    method Dispose()
      requires Valid()
      modifies this`disposed
      ensures Valid() && Abs() == Next(old(Abs()), Disposes)
    {
      if disposed { return; }
      disposed := true;
    }
  }
}
