/** What each critical section of CoverArtService does to its two maps, said of the maps themselves:
    which players and sessions change, how, and that the others do not. */
module CoverArtSteps {
  import opened Orders
  import opened CoverArtSessions

  /** The sessions at all other addresses are as before. */
  ghost predicate SameElsewhere(t: Table, t': Table, x: string) {
    t'.sessions - {x} == t.sessions - {x}
  }

  function Owned(x: Session): multiset<string> {
    if x.owned then multiset{x.objectPath} else multiset{}
  }

  /** Unregistering takes out the player alone. Its session loses one user; the last user takes it
      along, and only then is it removed, if the service made it. */
  lemma UnregisterResult(t: Table, player: string)
    requires Counted(t)
    ensures var t' := Unregister(t, player);
      && t'.players == t.players - {player}
      && (player !in t.players ==> t' == t)
      && (player in t.players ==>
            var x := t.players[player].address;
            && SameElsewhere(t, t', x)
            && (x !in t.sessions ==> t' == t.(players := t'.players))
            && (x in t.sessions && t.sessions[x].users == 1 ==>
                  t' == t.(players := t'.players, sessions := t.sessions - {x},
                           removed := t.removed + Owned(t.sessions[x])))
            && (x in t.sessions && t.sessions[x].users != 1 ==>
                  && 1 <= t.sessions[x].users
                  && t' == t.(players := t'.players,
                              sessions := t.sessions[x := t.sessions[x].(users := t.sessions[x].users - 1)])))
  {
    if player !in t.players { assert t.players - {player} == t.players; }
  }

  /** Invalidating takes out every player at the player's address, and no other, and the session there,
      which is removed if the service made it. */
  lemma InvalidateResult(t: Table, player: string)
    ensures var t' := Invalidate(t, player);
      && (player !in t.players ==> t' == t)
      && (player in t.players ==>
            var x := t.players[player].address;
            && (forall p :: p in t'.players <==> p in t.players && t.players[p].address != x)
            && (forall p | p in t'.players :: t'.players[p] == t.players[p])
            && t'.sessions == t.sessions - {x}
            && t' == t.(players := t'.players, sessions := t'.sessions,
                        removed := t.removed + if x in t.sessions then Owned(t.sessions[x]) else multiset{}))
  {
    if player in t.players && t.players[player].address !in t.sessions {
      assert t.sessions - {t.players[player].address} == t.sessions;
      assert t.removed + multiset{} == t.removed;
    }
  }

  /** The player is known with this device, and the session of its address has this port. */
  predicate Stays(t: Table, player: string, devicePath: string, port: nat) {
    && player in t.players && t.players[player].devicePath == devicePath
    && exists x :: x in t.sessions && x == t.players[player].address && t.sessions[x].port == port
  }

  /** A registration that is not up to date takes the player out and, in the table that leaves, puts it
      on the address's session if that has the port, and otherwise on the one found, or made, there,
      which takes over the users of the one replaced. If finding or making it fails the player stays
      out. */
  lemma RegisterResult(t: Table, player: string, p: Player, lookup: Lookup, creation: Creation)
    ensures var t0, t' := Unregister(t, player), Register(t, player, p.devicePath, p.address, p.port, lookup, creation);
      var users := if p.address in t0.sessions then t0.sessions[p.address].users else 0;
      var replaced := if p.address in t0.sessions then Owned(t0.sessions[p.address]) else multiset{};
      var players := t0.players[player := p];
      if Stays(t, player, p.devicePath, p.port) then t' == t
      else if p.address in t0.sessions && t0.sessions[p.address].port == p.port then
        t' == t0.(players := players,
                  sessions := t0.sessions[p.address := t0.sessions[p.address].(users := users + 1)])
      else if lookup.Existing? then
        t' == t0.(players := players, removed := t0.removed + replaced,
                  sessions := t0.sessions[p.address := Session(lookup.path, p.port, users + 1, false)])
      else if lookup.Absent? && creation.Created? then
        t' == t0.(players := players, removed := t0.removed + replaced, created := t0.created + multiset{creation.path},
                  sessions := t0.sessions[p.address := Session(creation.path, p.port, users + 1, true)])
      else
        t' == t0.(unheard := t'.unheard)
  {
    var t0 := Unregister(t, player);
    assert Stays(t, player, p.devicePath, p.port) <==> UpToDate(t, player, p.devicePath, p.port);
    if !UpToDate(t, player, p.devicePath, p.port) { EnterResult(t0, player, p, lookup, creation); }
  }

  lemma EnterResult(t: Table, player: string, p: Player, lookup: Lookup, creation: Creation)
    ensures var t' := Enter(t, player, p, lookup, creation);
      var users := if p.address in t.sessions then t.sessions[p.address].users else 0;
      var replaced := if p.address in t.sessions then Owned(t.sessions[p.address]) else multiset{};
      if p.address in t.sessions && t.sessions[p.address].port == p.port then
        t' == t.(players := t.players[player := p],
                 sessions := t.sessions[p.address := t.sessions[p.address].(users := users + 1)])
      else if lookup.Existing? then
        t' == t.(players := t.players[player := p], removed := t.removed + replaced,
                 sessions := t.sessions[p.address := Session(lookup.path, p.port, users + 1, false)])
      else if lookup.Absent? && creation.Created? then
        t' == t.(players := t.players[player := p], removed := t.removed + replaced,
                 created := t.created + multiset{creation.path},
                 sessions := t.sessions[p.address := Session(creation.path, p.port, users + 1, true)])
      else
        t' == t.(unheard := t'.unheard)
  {
    if !HasPort(t, p.address, p.port) {
      var x := Obtain(lookup, creation, p.port, UsersAt(t, p.address));
      if x.Some? { InstallResult(t, player, p, x.value); }
    }
  }

  lemma InstallResult(t: Table, player: string, p: Player, x: Session)
    ensures Join(Install(t, p.address, x), player, p) ==
      t.(players := t.players[player := p], created := t.created + Owned(x),
         removed := t.removed + (if p.address in t.sessions then Owned(t.sessions[p.address]) else multiset{}),
         sessions := t.sessions[p.address := x.(users := x.users + 1)])
    ensures !x.owned ==> t.created + Owned(x) == t.created
  {
    assert t.sessions[p.address := x][p.address := x.(users := x.users + 1)]
        == t.sessions[p.address := x.(users := x.users + 1)];
  }

  /** The daemon's signals take out sessions, all or one, and nothing else: no player is forgotten and
      no session is removed. */
  lemma DaemonResult(t: Table, order: seq<string>, x: string)
    ensures var t' := DaemonRestarted(t, order);
      t'.sessions == map[] && t' == t.(sessions := map[], lost := t'.lost)
    ensures var t' := SessionRemoved(t, x);
      && t'.sessions == t.sessions - {x}
      && t' == t.(sessions := t'.sessions,
                  lost := t.lost + if x in t.sessions then Owned(t.sessions[x]) else multiset{})
  {
    assert t.lost + multiset{} == t.lost;
    if x !in t.sessions { assert t.sessions - {x} == t.sessions; }
  }

  /** A reset empties both maps and removes each session once that the service made. */
  lemma ResetResult(t: Table, order: seq<string>, path: string)
    requires Enumerates(order, t.sessions.Keys)
    ensures var t' := Reset(t, order);
      && t' == t.(players := map[], sessions := map[], removed := t'.removed)
      && t'.removed[path] ==
           t.removed[path] + |set x | x in t.sessions && t.sessions[x].owned && t.sessions[x].objectPath == path|
  {
    PathsCountAll(t.sessions, order, path);
    assert Owners(t.sessions, path)
        == set x | x in t.sessions && t.sessions[x].owned && t.sessions[x].objectPath == path;
  }

  // ---------------------------------------------------------------- the guards of register_player

  /** register_player comes to its second critical section only with all of these. */
  predicate Complete(a: Action) {
    a.Registers? ==> a.player != "" && a.devicePath != "" && a.address != "" && a.port != 0
  }

  ghost predicate AllComplete(t: Table) {
    forall p | p in t.players ::
      p != "" && t.players[p].devicePath != "" && t.players[p].address != "" && t.players[p].port != 0
  }

  lemma StepComplete(t: Table, a: Action)
    requires AllComplete(t) && Complete(a)
    ensures AllComplete(Next(t, a))
  {
    if a.Registers? {
      RegisteredPlayers(t, a.player, Player(a.devicePath, a.address, a.port), a.lookup, a.creation);
    } else if a.Invalidates? {
      InvalidateResult(t, a.player);
    }
  }

  lemma RegisteredPlayers(t: Table, player: string, p: Player, lookup: Lookup, creation: Creation)
    ensures var t' := Register(t, player, p.devicePath, p.address, p.port, lookup, creation);
      forall q | q in t'.players ::
        (q in t.players && t'.players[q] == t.players[q]) || (q == player && t'.players[q] == p)
  {
    var t0 := Unregister(t, player);
    assert t0.players == t.players - {player} by {
      if player !in t.players { assert t.players - {player} == t.players; }
    }
    if !UpToDate(t, player, p.devicePath, p.port) { EnteredPlayers(t0, player, p, lookup, creation); }
  }

  lemma EnteredPlayers(t: Table, player: string, p: Player, lookup: Lookup, creation: Creation)
    ensures var t' := Enter(t, player, p, lookup, creation);
      t'.players == t.players || t'.players == t.players[player := p]
  {
  }

  /** So no player is ever in the table with a part missing. */
  lemma {:induction false} RunComplete(t: Table, actions: seq<Action>)
    requires AllComplete(t) && forall a | a in actions :: Complete(a)
    ensures AllComplete(After(t, actions))
    decreases |actions|
  {
    if actions != [] {
      StepComplete(t, actions[0]);
      RunComplete(Next(t, actions[0]), actions[1..]);
    }
  }
}
