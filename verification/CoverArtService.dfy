/** CoverArtService's session table as the source keeps it (native/src/cover_art_service.cpp): two
    maps changed under a mutex, one method per critical section. Answers of the daemon are
    parameters; every RemoveSession and CreateSession call is logged. */
module CoverArtServices {
  import opened Wrappers
  import opened Orders
  import opened CoverArtSessions

  lemma PathsSnoc(m: map<string, Session>, order: seq<string>, address: string)
    requires address in m
    ensures Paths(m, order + [address]) == Paths(m, order) + OwnedPath(m[address])
  {
    assert (order + [address])[..|order|] == order;
  }

  lemma ReconnectSnoc(t: Table, known: map<string, Player>, order: seq<string>, answers: string -> Answers,
                      player: string)
    requires player in known && forall p | p in order :: p in known
    ensures var t', p := ReconnectAll(t, known, order, answers), known[player];
      && ReconnectAll(t, known, order + [player], answers)
         == RegisterPlayer(t', player, p.devicePath, p.port, answers(player))
      && (ReconnectCompletes(t, known, order + [player], answers)
          <==> ReconnectCompletes(t, known, order, answers)
               && Completes(t', player, p.devicePath, p.port, answers(player)))
  {
    assert (order + [player])[..|order|] == order;
  }

  class CoverArtService {
    var players: map<string, Player>
    var sessions: map<string, Session>
    /** Sessions CreateSession returned and RemoveSession was called on. */
    var createCalls: multiset<string>
    var removeCalls: multiset<string>
    ghost var lost: multiset<string>
    /** Sessions obexd made for a CreateSession call that reported an error. */
    ghost var unheard: multiset<string>

    constructor ()
      ensures Abs() == EMPTY
    {
      players := map[];
      sessions := map[];
      createCalls := multiset{};
      removeCalls := multiset{};
      lost := multiset{};
      unheard := multiset{};
    }

    ghost function Abs(): Table
      reads this
    {
      Table(players, sessions, createCalls, removeCalls, lost, unheard)
    }

    method ReleaseSession(x: Session)
      modifies this`removeCalls
      ensures removeCalls == old(removeCalls) + OwnedPath(x)
    {
      if x.owned { removeCalls := removeCalls + multiset{x.objectPath}; }
    }

    /** find_session, then create_session if there is none; `x` is the session with its owner. */
    method ObtainSession(port: nat, users: nat, lookup: Lookup, creation: Creation) returns (x: Option<Session>)
      modifies this`createCalls, this`unheard
      ensures x == Obtain(lookup, creation, port, users)
      ensures x.Some? ==> createCalls == old(createCalls) + OwnedPath(x.value) && unheard == old(unheard)
      ensures x.None? ==> createCalls == old(createCalls) && unheard == old(unheard) + Unheard(lookup, creation)
    {
      if lookup.LookupThrows? { return None; }
      if lookup.Existing? { return Some(Session(lookup.path, port, users, false)); }
      if creation.CreationThrows? {
        unheard := unheard + Unheard(lookup, creation);
        return None;
      }
      createCalls := createCalls + multiset{creation.path};
      x := Some(Session(creation.path, port, users, true));
    }

    // -------------------------------------------------------------- unregistering

    method UnregisterPlayer(player: string)
      modifies this
      ensures Abs() == Unregister(old(Abs()), player)
    {
      if player !in players { return; }
      var address := players[player].address;
      players := players - {player};
      if address !in sessions { return; }
      sessions := sessions[address := sessions[address].(users := Decremented(sessions[address].users))];
      if sessions[address].users != 0 { return; }
      ReleaseSession(sessions[address]);
      sessions := sessions - {address};
    }

    method InvalidatePlayerSession(player: string)
      modifies this
      ensures Abs() == Invalidate(old(Abs()), player)
    {
      if player !in players { return; }
      var address := players[player].address;
      ErasePlayersAt(address);
      if address in sessions {
        ReleaseSession(sessions[address]);
        sessions := sessions - {address};
      }
    }

    method ErasePlayersAt(address: string)
      modifies this`players
      ensures players == map p | p in old(players) && old(players)[p].address != address :: old(players)[p]
    {
      ghost var before := players;
      var left := players.Keys;
      while left != {}
        invariant left <= before.Keys
        invariant players == map p | p in before && (p in left || before[p].address != address) :: before[p]
      {
        var current :| current in left;
        left := left - {current};
        if players[current].address == address { players := players - {current}; }
      }
    }

    // -------------------------------------------------------------- registering

    /** Up to the device lookup: the first critical section. */
    method BeginRegistration(player: string, devicePath: string, port: nat) returns (done: bool)
      modifies this
      ensures done <==>
        || player == "" || devicePath == "" || port == 0
        || (&& player in old(players) && old(players)[player].devicePath == devicePath
            && old(players)[player].address in old(sessions)
            && old(sessions)[old(players)[player].address].port == port)
      ensures done ==> forall answers :: Abs() == RegisterPlayer(old(Abs()), player, devicePath, port, answers)
      ensures !done ==> Abs() == old(Abs())
    {
      if player == "" || devicePath == "" || port == 0 {
        UnregisterPlayer(player);
        return true;
      }
      done := IsUpToDate(player, devicePath, port);
    }

    method IsUpToDate(player: string, devicePath: string, port: nat) returns (r: bool)
      ensures r == UpToDate(Abs(), player, devicePath, port)
    {
      r := false;
      if player in players && players[player].devicePath == devicePath {
        var address := players[player].address;
        if address in sessions && sessions[address].port == port { r := true; }
      }
    }

    /** From the device lookup on: the second critical section. Whatever ran in between, it
        re-examines the table; `ok` is false when a call threw. */
    method FinishRegistration(player: string, devicePath: string, port: nat, answers: Answers) returns (ok: bool)
      modifies this
      ensures Abs() == AfterLookup(old(Abs()), player, devicePath, port, answers)
      ensures ok == CompletesAfterLookup(old(Abs()), player, devicePath, port, answers)
      ensures answers.address.AddressThrows? ==> Abs() == old(Abs()) && !ok
      ensures answers.address == Address("") ==> players == old(players) - {player} && ok
    {
      if answers.address.AddressThrows? { return false; }
      var address := answers.address.text;
      if address == "" {
        UnregisterPlayer(player);
        assert player !in old(players) ==> old(players) - {player} == old(players);
        return true;
      }
      var upToDate := IsUpToDate(player, devicePath, port);
      if upToDate { return true; }
      UnregisterPlayer(player);
      ok := EnterSession(player, Player(devicePath, address, port), answers.lookup, answers.creation);
    }

    /** The rest of it, once the player is out. */
    method EnterSession(player: string, p: Player, lookup: Lookup, creation: Creation) returns (ok: bool)
      modifies this
      ensures Abs() == Enter(old(Abs()), player, p, lookup, creation)
      ensures ok == (HasPort(old(Abs()), p.address, p.port) || Obtain(lookup, creation, p.port, 0).Some?)
    {
      ok := true;
      if !(p.address in sessions && sessions[p.address].port == p.port) {
        ok := ReplaceSession(p.address, p.port, lookup, creation);
      }
      if ok { JoinSession(player, p); }
    }

    method JoinSession(player: string, p: Player)
      requires p.address in sessions
      modifies this`sessions, this`players
      ensures Abs() == Join(old(Abs()), player, p)
    {
      var x := sessions[p.address];
      sessions := sessions[p.address := x.(users := x.users + 1)];
      players := players[player := p];
    }

    /** Finds or creates the session for the port and puts it in the table. */
    method ReplaceSession(address: string, port: nat, lookup: Lookup, creation: Creation) returns (ok: bool)
      modifies this`sessions, this`createCalls, this`removeCalls, this`unheard
      ensures ok == Obtain(lookup, creation, port, UsersAt(old(Abs()), address)).Some?
      ensures ok ==>
        Abs() == Install(old(Abs()), address, Obtain(lookup, creation, port, UsersAt(old(Abs()), address)).value)
      ensures !ok ==> Abs() == Miss(old(Abs()), Unheard(lookup, creation))
    {
      var users := if address in sessions then sessions[address].users else 0;
      ghost var before := Abs();
      assert users == UsersAt(before, address);
      var x := ObtainSession(port, users, lookup, creation);
      if x.None? {
        assert Abs() == Miss(before, Unheard(lookup, creation));
        return false;
      }
      assert Abs() == before.(created := before.created + OwnedPath(x.value));
      InstallSession(address, x.value);
      assert Abs() == Install(before, address, x.value);
      ok := true;
    }

    /** The new session takes the old one's place. */
    method InstallSession(address: string, x: Session)
      modifies this`sessions, this`removeCalls
      ensures sessions == old(sessions)[address := x]
      ensures removeCalls == old(removeCalls) + OwnedAt(old(sessions), address)
    {
      if address in sessions { ReleaseSession(sessions[address]); }
      sessions := sessions[address := x];
    }

    /** register_player with nothing between its critical sections. */
    method RegisterAtOnce(player: string, devicePath: string, port: nat, answers: Answers) returns (ok: bool)
      modifies this
      ensures Abs() == RegisterPlayer(old(Abs()), player, devicePath, port, answers)
      ensures ok == Completes(old(Abs()), player, devicePath, port, answers)
    {
      var done := BeginRegistration(player, devicePath, port);
      if done { return true; }
      ok := FinishRegistration(player, devicePath, port, answers);
    }

    /** reconnect_players: each player known at the start is registered again; one that throws
        does not keep the next from being tried. */
    method ReconnectPlayers(answers: string -> Answers) returns (ok: bool, ghost order: seq<string>)
      modifies this
      ensures Enumerates(order, old(players).Keys)
      ensures Abs() == ReconnectAll(old(Abs()), old(players), order, answers)
      ensures ok == ReconnectCompletes(old(Abs()), old(players), order, answers)
    {
      var known := players;
      var left := known.Keys;
      ok, order := true, [];
      while left != {}
        invariant left <= known.Keys && Enumerates(order, known.Keys - left)
        invariant Abs() == ReconnectAll(old(Abs()), known, order, answers)
        invariant ok == ReconnectCompletes(old(Abs()), known, order, answers)
      {
        var player :| player in left;
        left := left - {player};
        var registered := RegisterAtOnce(player, known[player].devicePath, known[player].port, answers(player));
        ok := ok && registered;
        ReconnectSnoc(old(Abs()), known, order, answers, player);
        order := order + [player];
      }
    }

    // -------------------------------------------------------------- reset and daemon signals

    method ResetAll() returns (ghost order: seq<string>)
      modifies this
      ensures Enumerates(order, old(sessions).Keys)
      ensures Abs() == Reset(old(Abs()), order)
    {
      order := [];
      var left := sessions.Keys;
      while left != {}
        invariant left <= sessions.Keys && Enumerates(order, sessions.Keys - left)
        invariant sessions == old(sessions) && players == old(players) && createCalls == old(createCalls)
        invariant lost == old(lost) && unheard == old(unheard)
        invariant removeCalls == old(removeCalls) + Paths(sessions, order)
      {
        var address :| address in left;
        left := left - {address};
        ReleaseSession(sessions[address]);
        PathsSnoc(sessions, order, address);
        order := order + [address];
      }
      sessions := map[];
      players := map[];
    }

    /** `reconnect` tells whether reconnect_players is to be posted. */
    method OnObexOwnerChanged(running: bool, ghost order: seq<string>) returns (reconnect: bool)
      requires Enumerates(order, sessions.Keys)
      modifies this
      ensures Abs() == DaemonRestarted(old(Abs()), order) && reconnect == running
    {
      lost := lost + Paths(sessions, order);
      sessions := map[];
      reconnect := running;
    }

    /** `address` is the entry dropped, if one had the path. */
    method OnSessionRemoved(path: string, isSession: bool) returns (reconnect: bool, ghost address: string)
      modifies this
      ensures reconnect <==> isSession && exists a :: a in old(sessions) && old(sessions)[a].objectPath == path
      ensures reconnect ==> address in old(sessions) && old(sessions)[address].objectPath == path
      ensures Abs() == if reconnect then SessionRemoved(old(Abs()), address) else old(Abs())
    {
      reconnect, address := false, "";
      if !isSession { return; }
      var left := sessions.Keys;
      while left != {}
        invariant left <= sessions.Keys
        invariant forall a | a in sessions && a !in left :: sessions[a].objectPath != path
      {
        var a :| a in left;
        left := left - {a};
        if sessions[a].objectPath == path {
          lost := lost + OwnedPath(sessions[a]);
          sessions := sessions - {a};
          return true, a;
        }
      }
    }
  }
}
