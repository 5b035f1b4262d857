/** The event handling of BluezMediaClient as the source keeps it (lib/src/bluez_media_client.dart):
    five maps of proxies, the availability flags and the streams it adds to. */
module BluezMediaClients {
  import opened WireCodec
  import opened Messages
  import opened ObjectCache
  import opened ObjectMirror

  class BluezMediaClient {
    var closed: bool
    var serviceAvailable: bool
    var ready: bool
    var players: map<Text, Message>
    var controls: map<Text, Message>
    var folders: map<Text, Message>
    var items: map<Text, Message>
    var transports: map<Text, Message>
    /** Everything added to the streams, in order. */
    var announced: seq<Announcement>

    constructor ()
      ensures !closed && Abs() == FRESH
    {
      closed := false;
      serviceAvailable := true;
      ready := false;
      players := map[];
      controls := map[];
      folders := map[];
      items := map[];
      transports := map[];
      announced := [];
    }

    ghost function Abs(): Mirror
      reads this
    {
      Mirror(players, controls, folders, items, transports, serviceAvailable, ready, announced)
    }

    /** Empty messages and messages after close are ignored; one that does not decode is dropped. */
    method OnEvent(message: seq<byte>)
      modifies this
      ensures closed == old(closed)
      ensures Abs() == if old(closed) then old(Abs()) else Dispatch(old(Abs()), message)
    {
      if message == [] || closed { return; }
      DispatchEvent(message);
    }

    method DispatchEvent(message: seq<byte>)
      requires message != [] && !closed
      modifies this
      ensures !closed && Abs() == Dispatch(old(Abs()), message)
    {
      var tag := message[0];
      if tag == LOST_TAG || tag == BACK_TAG {
        var available := tag == BACK_TAG;
        if serviceAvailable != available {
          serviceAvailable := available;
          announced := announced + [Availability(available)];
        }
      } else if tag == READY_TAG {
        ready := true;
      } else if tag == 0x01 {
        OnPlayer(message);
      } else if tag == 0x02 {
        OnControl(message);
      } else if tag == 0x04 {
        OnTransport(message);
      } else if tag == 0x05 {
        OnFolder(message);
      } else if tag == 0x06 {
        OnItem(message);
      } else if tag == REMOVED_TAG {
        var removed := DecodeMessage(RemovedKind, message, 1);
        if removed.None? { return; }
        assert removed.value.value.ObjectRemoved?;
        RemoveObject(removed.value.value.objectPath, removed.value.value.interfaceName);
      }
    }

    method OnPlayer(message: seq<byte>)
      modifies this`players, this`announced
      ensures Abs() == ShowProps(old(Abs()), Player, message)
    {
      var props := DecodeMessage(PlayerKind, message, 1);
      if props.None? { return; }
      var path := PathOf(props.value.value);
      if path !in players { announced := announced + [Appeared(Location(path, Player))]; }
      players := players[path := props.value.value];
    }

    method OnControl(message: seq<byte>)
      modifies this`controls, this`announced
      ensures Abs() == ShowProps(old(Abs()), Control, message)
    {
      var props := DecodeMessage(ControlKind, message, 1);
      if props.None? { return; }
      var path := PathOf(props.value.value);
      if path !in controls { announced := announced + [Appeared(Location(path, Control))]; }
      controls := controls[path := props.value.value];
    }

    method OnTransport(message: seq<byte>)
      modifies this`transports, this`announced
      ensures Abs() == ShowProps(old(Abs()), Transport, message)
    {
      var props := DecodeMessage(TransportKind, message, 1);
      if props.None? { return; }
      var path := PathOf(props.value.value);
      if path !in transports { announced := announced + [Appeared(Location(path, Transport))]; }
      transports := transports[path := props.value.value];
    }

    method OnFolder(message: seq<byte>)
      modifies this`folders, this`announced
      ensures Abs() == ShowProps(old(Abs()), Folder, message)
    {
      var props := DecodeMessage(FolderKind, message, 1);
      if props.None? { return; }
      var path := PathOf(props.value.value);
      if path !in folders { announced := announced + [Appeared(Location(path, Folder))]; }
      folders := folders[path := props.value.value];
    }

    method OnItem(message: seq<byte>)
      modifies this`items, this`announced
      ensures Abs() == ShowProps(old(Abs()), Item, message)
    {
      var props := DecodeMessage(ItemKind, message, 1);
      if props.None? { return; }
      var path := PathOf(props.value.value);
      if path !in items { announced := announced + [Appeared(Location(path, Item))]; }
      items := items[path := props.value.value];
    }

    method RemoveObject(path: Text, interfaceName: Text)
      modifies this
      ensures closed == old(closed)
      ensures Abs() == HideProxy(old(Abs()), Location(path, ParseName(interfaceName)))
    {
      if interfaceName == PLAYER_NAME {
        if path in players { players := players - {path}; Gone(path, Player); }
      } else if interfaceName == CONTROL_NAME {
        if path in controls { controls := controls - {path}; Gone(path, Control); }
      } else if interfaceName == FOLDER_NAME {
        if path in folders { folders := folders - {path}; Gone(path, Folder); }
      } else if interfaceName == ITEM_NAME {
        if path in items { items := items - {path}; Gone(path, Item); }
      } else if interfaceName == TRANSPORT_NAME {
        if path in transports { transports := transports - {path}; Gone(path, Transport); }
      }
    }

    method Gone(path: Text, interface: Interface)
      modifies this`announced
      ensures announced == old(announced) + [Vanished(Location(path, interface))]
    {
      announced := announced + [Vanished(Location(path, interface))];
    }

    /** Nothing is shown or announced once the client is closed. */
    method Close()
      modifies this
      ensures closed
      ensures !old(closed) ==> Abs() == old(Abs()).(players := map[], controls := map[], folders := map[],
                                                    items := map[], transports := map[])
      ensures old(closed) ==> Abs() == old(Abs())
    {
      if closed { return; }
      closed := true;
      players := map[];
      controls := map[];
      folders := map[];
      items := map[];
      transports := map[];
    }
  }
}
