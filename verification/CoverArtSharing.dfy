/** One CoverArtService used by a download while other threads use it too
    (native/src/cover_art_service.cpp): every use is logged as a step of the session table, so that
    what holds of all its runs holds at every moment of a download. */
module CoverArtSharing {
  import opened Wrappers
  import opened Orders
  import opened CoverArtSessions
  import opened CoverArtSteps
  import opened CoverArtServices

  /** The registration of the player has had its effect: if it is known, then with this device, and its
      address has a session with this port. */
  predicate Served(t: Table, player: string, devicePath: string, port: nat) {
    player in t.players ==>
      && t.players[player].devicePath == devicePath
      && t.players[player].address in t.sessions
      && t.sessions[t.players[player].address].port == port
  }

  lemma CompletedIsServed(t: Table, player: string, devicePath: string, port: nat, answers: Answers)
    requires CompletesAfterLookup(t, player, devicePath, port, answers)
    ensures Served(AfterLookup(t, player, devicePath, port, answers), player, devicePath, port)
  {
    var text := answers.address.text;
    if text == "" {
      assert player !in Unregister(t, player).players;
    } else if !UpToDate(t, player, devicePath, port) {
      EnterServes(Unregister(t, player), player, Player(devicePath, text, port), answers.lookup, answers.creation);
    }
  }

  lemma EnterServes(t: Table, player: string, p: Player, lookup: Lookup, creation: Creation)
    requires HasPort(t, p.address, p.port) || Obtain(lookup, creation, p.port, 0).Some?
    ensures Served(Enter(t, player, p, lookup, creation), player, p.devicePath, p.port)
    ensures player in Enter(t, player, p, lookup, creation).players
  {
    if !HasPort(t, p.address, p.port) {
      var x := Obtain(lookup, creation, p.port, UsersAt(t, p.address)).value;
      assert Enter(t, player, p, lookup, creation) == Join(Install(t, p.address, x), player, p);
    }
  }

  /** At some moment of the run from step `start` on, the player was served. */
  ghost predicate ServedWithin(start: nat, trace: seq<Action>, player: string, p: Player) {
    exists n :: start <= n <= |trace| && Served(After(EMPTY, trace[..n]), player, p.devicePath, p.port)
  }

  lemma StillServed(start: nat, trace: seq<Action>, more: seq<Action>)
    requires trace <= more
    ensures forall player, p | ServedWithin(start, trace, player, p) :: ServedWithin(start, more, player, p)
  {
    forall player, p | ServedWithin(start, trace, player, p)
      ensures ServedWithin(start, more, player, p)
    {
      var n :| start <= n <= |trace| && Served(After(EMPTY, trace[..n]), player, p.devicePath, p.port);
      assert more[..n] == trace[..n];
    }
  }

  class SharedService {
    const service: CoverArtService
    /** The critical sections entered so far, by this thread or others. */
    ghost var trace: seq<Action>

    constructor (service: CoverArtService)
      requires service.Abs() == EMPTY
      ensures this.service == service && trace == [] && Valid()
    {
      this.service := service;
      trace := [];
    }

    ghost predicate Valid()
      reads this, service
    {
      && Runs(EMPTY, trace) && service.Abs() == After(EMPTY, trace)
      && forall a | a in trace :: Complete(a)
    }

    /** At every moment of any use, sessions are counted right and balance with what was created, and no
        player is known without device, address or port. */
    lemma TableIsRight(path: string)
      requires Valid()
      ensures Counted(service.Abs()) && BalancedAt(service.Abs(), path) && AllComplete(service.Abs())
    {
      RunComplete(EMPTY, trace);
      SessionCounts(trace);
      SessionsConserved(trace, path);
    }

    ghost method Log(before: Table, a: Action)
      requires Runs(EMPTY, trace) && before == After(EMPTY, trace)
      requires Enabled(before, a) && service.Abs() == Next(before, a)
      requires Complete(a) && forall b | b in trace :: Complete(b)
      modifies this`trace
      ensures Valid() && trace == old(trace) + [a]
    {
      RunSnoc(EMPTY, trace, a);
      trace := trace + [a];
    }

    // -------------------------------------------------------------- critical sections

    method Unregister(player: string)
      requires Valid()
      modifies this`trace, service
      ensures Valid() && trace == old(trace) + [Unregisters(player)]
    {
      ghost var before := service.Abs();
      service.UnregisterPlayer(player);
      Log(before, Unregisters(player));
    }

    method Invalidate(player: string)
      requires Valid()
      modifies this`trace, service
      ensures Valid() && trace == old(trace) + [Invalidates(player)]
    {
      ghost var before := service.Abs();
      service.InvalidatePlayerSession(player);
      Log(before, Invalidates(player));
    }

    /** The part of register_player after the device lookup, whatever the calls answer. */
    method Register(player: string, devicePath: string, port: nat, answers: Answers) returns (ok: bool)
      requires Valid() && player != "" && devicePath != "" && port != 0
      modifies this`trace, service
      ensures Valid() && old(trace) <= trace
      ensures ok ==> Served(service.Abs(), player, devicePath, port)
    {
      ghost var before := service.Abs();
      ok := service.FinishRegistration(player, devicePath, port, answers);
      if ok { CompletedIsServed(before, player, devicePath, port, answers); }
      if answers.address.Address? {
        var text := answers.address.text;
        if text == "" {
          Log(before, Unregisters(player));
        } else {
          Log(before, Registers(player, devicePath, text, port, answers.lookup, answers.creation));
        }
      }
    }

    method Reset()
      requires Valid()
      modifies this`trace, service
      ensures Valid() && old(trace) <= trace
    {
      ghost var before := service.Abs();
      ghost var order := service.ResetAll();
      Log(before, Resets(order));
    }

    method DaemonSignal(restarts: bool, path: string)
      requires Valid()
      modifies this`trace, service
      ensures Valid() && old(trace) <= trace
    {
      ghost var before := service.Abs();
      if restarts {
        ghost var order := SetToSeq(service.sessions.Keys);
        var _ := service.OnObexOwnerChanged(true, order);
        Log(before, Restarts(order));
      } else {
        var reconnect;
        ghost var address;
        reconnect, address := service.OnSessionRemoved(path, true);
        if reconnect { Log(before, Removes(address)); }
      }
    }

    /** Any number of critical sections of other threads. */
    method OtherThreads()
      requires Valid()
      modifies this`trace, service
      ensures Valid() && old(trace) <= trace
    {
      var steps: nat := *;
      while steps > 0
        invariant Valid() && old(trace) <= trace
      {
        var kind: nat, player: string, devicePath: string, port: nat := *, *, *, *;
        if kind == 0 {
          Unregister(player);
        } else if kind == 1 {
          Invalidate(player);
        } else if kind == 2 {
          var answers := AnyAnswers();
          if player != "" && devicePath != "" && port != 0 {
            var _ := Register(player, devicePath, port, answers);
          }
        } else if kind == 3 {
          Reset();
        } else {
          DaemonSignal(kind == 4, devicePath);
        }
        steps := steps - 1;
      }
    }

    method AnyAnswers() returns (answers: Answers)
    {
      var throws: bool, finds: bool, creates: bool, loses: bool := *, *, *, *;
      var address: string, found: string, created: string := *, *, *;
      var lookup := if finds then Existing(found) else if throws then LookupThrows else Absent;
      var creation := if creates then Created(created) else CreationThrows(if loses then Some(created) else None);
      var noAddress: bool := *;
      answers := Answers(if noAddress then AddressThrows else Address(address), lookup, creation);
    }

    // -------------------------------------------------------------- registering, with others in between

    /** register_player, with other threads between its critical sections. */
    method RegisterPlayer(player: string, devicePath: string, port: nat) returns (ok: bool)
      requires Valid()
      modifies this`trace, service
      ensures Valid() && old(trace) <= trace
      ensures ok ==> Served(service.Abs(), player, devicePath, port)
    {
      ghost var before := service.Abs();
      var done := service.BeginRegistration(player, devicePath, port);
      if done {
        assert service.Abs() == RegisterPlayerFully(before, player, devicePath, port);
        if player == "" || devicePath == "" || port == 0 { Log(before, Unregisters(player)); }
        return true;
      }
      OtherThreads();
      var answers := AnyAnswers();
      ok := Register(player, devicePath, port, answers);
    }

    /** reconnect_players: the players known when it starts are registered again one by one, with
        other threads before and within each registration; one that throws does not stop the rest. */
    method ReconnectPlayers() returns (ok: bool)
      requires Valid()
      modifies this`trace, service
      ensures Valid() && old(trace) <= trace
      ensures ok ==>
        forall p | p in old(service.players) :: ServedWithin(|old(trace)|, trace, p, old(service.players)[p])
    {
      var known := service.players;
      var left := known.Keys;
      ok := true;
      while left != {}
        invariant Valid() && old(trace) <= trace
        invariant left <= known.Keys
        invariant ok ==> forall p | p in known && p !in left :: ServedWithin(|old(trace)|, trace, p, known[p])
      {
        ghost var before := trace;
        var player :| player in left;
        left := left - {player};
        OtherThreads();
        var registered := RegisterPlayer(player, known[player].devicePath, known[player].port);
        ok := ok && registered;
        StillServed(|old(trace)|, before, trace);
        assert trace[..|trace|] == trace;
      }
    }

    ghost function RegisterPlayerFully(t: Table, player: string, devicePath: string, port: nat): Table {
      CoverArtSessions.RegisterPlayer(t, player, devicePath, port,
                                      Answers(AddressThrows, LookupThrows, CreationThrows(None)))
    }

    /** The session of a registered player, if both are in the table. */
    method SessionOf(player: string) returns (path: Option<string>)
      ensures path == SessionPath(service.Abs(), player)
    {
      path := None;
      if player in service.players {
        var address := service.players[player].address;
        if address in service.sessions { path := Some(service.sessions[address].objectPath); }
      }
    }
  }

  function SessionPath(t: Table, player: string): Option<string> {
    if player !in t.players || t.players[player].address !in t.sessions then None
    else Some(t.sessions[t.players[player].address].objectPath)
  }
}
