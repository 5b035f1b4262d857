/** How exact the user counts of CoverArtSessions are once the daemon has interfered.

    The session of an address can be forgotten while players are registered there. They are not
    counted again, so each session has a number of players that it never counts. It is fixed when
    the session enters the table. */
module CoverArtCounts {
  import opened CoverArtSessions

  /** The players at the address that its session does not count. */
  function Uncounted(t: Table, x: string): int
    requires x in t.sessions
  {
    |PlayersAt(t.players, x)| - t.sessions[x].users
  }

  /** Whoever is registered at the address besides the player of this registration. */
  function OthersAt(t: Table, a: Action, x: string): set<string> {
    PlayersAt(t.players, x) - if a.Registers? then {a.player} else {}
  }

  /** An unregistration that keeps the session keeps their number; one that drops it leaves them. */
  lemma UnregisterUncounted(t: Table, player: string, x: string)
    requires Counted(t)
    ensures var t' := Unregister(t, player);
      && player !in t'.players
      && (x in t'.sessions ==> x in t.sessions && Uncounted(t', x) == Uncounted(t, x))
      && (x in t.sessions && x !in t'.sessions ==> |PlayersAt(t'.players, x)| == Uncounted(t, x))
      && (x !in t.sessions ==> PlayersAt(t'.players, x) == PlayersAt(t.players, x) - {player})
  {
    if player in t.players { PlayersWithout(t.players, player, x); }
  }

  lemma JoinUncounted(t: Table, player: string, p: Player, x: string)
    requires player !in t.players && p.address in t.sessions && x in t.sessions
    ensures Uncounted(Join(t, player, p), x) == Uncounted(t, x)
  {
    PlayersWith(t.players, player, p, x);
  }

  /** Entering keeps what an old session does not count; a new one counts none of those there. */
  lemma EnterUncounted(t: Table, player: string, p: Player, lookup: Lookup, creation: Creation, x: string)
    requires player !in t.players
    ensures var t' := Enter(t, player, p, lookup, creation);
      x in t'.sessions ==>
        && (x in t.sessions ==> Uncounted(t', x) == Uncounted(t, x))
        && (x !in t.sessions ==> x == p.address && Uncounted(t', x) == |PlayersAt(t.players, x)|)
  {
    if HasPort(t, p.address, p.port) {
      if x in t.sessions { JoinUncounted(t, player, p, x); }
    } else {
      var s := Obtain(lookup, creation, p.port, UsersAt(t, p.address));
      if s.Some? { InstalledUncounted(t, player, p, s.value, x); }
    }
  }

  lemma InstalledUncounted(t: Table, player: string, p: Player, s: Session, x: string)
    requires player !in t.players && s.users == UsersAt(t, p.address)
    ensures var t' := Join(Install(t, p.address, s), player, p);
      x in t'.sessions ==>
        && (x in t.sessions ==> Uncounted(t', x) == Uncounted(t, x))
        && (x !in t.sessions ==> x == p.address && Uncounted(t', x) == |PlayersAt(t.players, x)|)
  {
    var t1 := Install(t, p.address, s);
    if x in t1.sessions { JoinUncounted(t1, player, p, x); }
  }

  /** As long as an address has a session, no step changes how many of its players go uncounted. A
      session enters the table with a registration, and then all the other players there do. */
  lemma StepUncounted(t: Table, a: Action, x: string)
    requires Counted(t) && x in Next(t, a).sessions
    ensures x !in t.sessions ==> a.Registers? && a.address == x
    ensures Uncounted(Next(t, a), x) == if x in t.sessions then Uncounted(t, x) else |OthersAt(t, a, x)|
  {
    match a
    case Registers(player, devicePath, address, port, lookup, creation) =>
      if !UpToDate(t, player, devicePath, port) {
        RegisterUncounted(t, player, Player(devicePath, address, port), lookup, creation, x);
      }
    case Unregisters(player) => UnregisterUncounted(t, player, x);
    case Invalidates(player) =>
      if player in t.players && t.players[player].address != x {
        assert PlayersAt(Invalidate(t, player).players, x) == PlayersAt(t.players, x);
      }
    case _ =>
  }

  lemma RegisterUncounted(t: Table, player: string, p: Player, lookup: Lookup, creation: Creation, x: string)
    requires Counted(t) && x in Enter(Unregister(t, player), player, p, lookup, creation).sessions
    ensures var t' := Enter(Unregister(t, player), player, p, lookup, creation);
      && (x in t.sessions ==> Uncounted(t', x) == Uncounted(t, x))
      && (x !in t.sessions ==> x == p.address && Uncounted(t', x) == |PlayersAt(t.players, x) - {player}|)
  {
    UnregisterUncounted(t, player, x);
    EnterUncounted(Unregister(t, player), player, p, lookup, creation, x);
  }

  // ---------------------------------------------------------------- runs

  /** The table before step `m`. */
  function Before(actions: seq<Action>, m: nat): Table
    requires m <= |actions|
  {
    After(EMPTY, actions[..m])
  }

  /** Step `i` brings in the session that the address has had ever since, up to step `n`. */
  ghost predicate Entered(actions: seq<Action>, i: nat, n: nat, x: string) {
    && i < n <= |actions| && x !in Before(actions, i).sessions
    && forall m | i < m <= n :: x in Before(actions, m).sessions
  }

  lemma PrefixStep(actions: seq<Action>, m: nat)
    requires m < |actions|
    ensures Before(actions, m + 1) == Next(Before(actions, m), actions[m])
    ensures Counted(Before(actions, m))
  {
    RunCounts(EMPTY, actions[..m]);
    assert actions[..m + 1] == actions[..m] + [actions[m]];
    RunSnoc(EMPTY, actions[..m], actions[m]);
  }

  lemma PrefixUncounted(actions: seq<Action>, m: nat, x: string)
    requires m < |actions| && x in Before(actions, m + 1).sessions
    ensures var t, t' := Before(actions, m), Before(actions, m + 1);
      && (x in t.sessions ==> Uncounted(t', x) == Uncounted(t, x))
      && (x !in t.sessions ==>
            && actions[m].Registers? && actions[m].address == x
            && Uncounted(t', x) == |OthersAt(t, actions[m], x)|)
  {
    PrefixStep(actions, m);
    StepUncounted(Before(actions, m), actions[m], x);
  }

  /** Whatever session there is was brought in by some step. */
  lemma {:induction false} LastEntry(actions: seq<Action>, n: nat, x: string) returns (i: nat)
    requires n <= |actions| && x in Before(actions, n).sessions
    ensures Entered(actions, i, n, x)
  {
    i := n - 1;
    if x in Before(actions, i).sessions { i := LastEntry(actions, i, x); }
  }

  lemma {:induction false} UncountedSince(actions: seq<Action>, i: nat, n: nat, x: string)
    requires Entered(actions, i, n, x)
    ensures actions[i].Registers? && actions[i].address == x
    ensures Uncounted(Before(actions, n), x) == |OthersAt(Before(actions, i), actions[i], x)|
  {
    PrefixUncounted(actions, n - 1, x);
    if n - 1 > i { UncountedSince(actions, i, n - 1, x); }
  }

  /** In every run, a session does not count exactly as many players as there were at its address,
      besides the one registering, when it last entered the table; so its count is exact if and only
      if there were none. By LastEntry there is such a step for every session in the table. */
  lemma CountExactIffEnteredAlone(actions: seq<Action>, i: nat, x: string)
    requires Entered(actions, i, |actions|, x)
    ensures actions[i].Registers? && actions[i].address == x
    ensures var t, others := After(EMPTY, actions), OthersAt(Before(actions, i), actions[i], x);
      && x in t.sessions && Uncounted(t, x) == |others|
      && (t.sessions[x].users == |PlayersAt(t.players, x)| <==> others == {})
  {
    UncountedSince(actions, i, |actions|, x);
    assert actions[..|actions|] == actions;
  }

  // ---------------------------------------------------------------- what follows

  /** An unregistration drops a session that others still use if and only if the player is the only
      one counted and there are uncounted ones; if the session is owned, it is removed. */
  lemma DroppedInUse(t: Table, player: string)
    requires Counted(t) && player in t.players && t.players[player].address in t.sessions
    ensures var x := t.players[player].address; var t' := Unregister(t, player);
      && (x !in t'.sessions && PlayersAt(t'.players, x) != {} <==> t.sessions[x].users == 1 && Uncounted(t, x) > 0)
      && (x !in t'.sessions ==> t'.removed == t.removed + OwnedPath(t.sessions[x]))
  {
    PlayersWithout(t.players, player, t.players[player].address);
  }

  /** Two players at one address share a session, as registering them shows. */
  lemma TwoPlayersShare(first: string, second: string, p: Player, path: string)
    requires first != second
    ensures After(EMPTY, [Joining(first, p, path), Joining(second, p, path)]) == Shared(first, second, p, path)
    ensures PlayersAt(Shared(first, second, p, path).players, p.address) == {first, second}
  {
    var a, b := Joining(first, p, path), Joining(second, p, path);
    var session := Session(path, p.port, 1, true);
    var t1 := EMPTY.(players := map[first := p], sessions := map[p.address := session], created := multiset{path});
    assert Next(EMPTY, a) == t1 by { assert Unregister(EMPTY, first) == EMPTY; }
    assert Next(t1, b) == Shared(first, second, p, path) by { assert Unregister(t1, second) == t1; }
    RunSnoc(EMPTY, [], a);
    RunSnoc(EMPTY, [a], b);
    assert [] + [a] == [a] && [a] + [b] == [a, b];
  }

  function Shared(first: string, second: string, p: Player, path: string): Table {
    EMPTY.(players := map[first := p, second := p],
           sessions := map[p.address := Session(path, p.port, 2, true)], created := multiset{path})
  }

  function Joining(player: string, p: Player, path: string): Action {
    Registers(player, p.devicePath, p.address, p.port, Absent, Created(path))
  }

  /** That is reached: two players share a session, obexd removes it, the first is registered again,
      and when the second is unregistered the new session is removed though the first still uses it. */
  lemma SharedSessionRemoved(first: string, second: string, p: Player, path: string, again: string)
    requires first != second
    ensures var t := After(EMPTY, [Joining(first, p, path), Joining(second, p, path), Removes(p.address),
                                   Joining(first, p, again), Unregisters(second)]);
      && t.players == map[first := p] && t.sessions == map[]
      && t.removed == multiset{again} && t.lost == multiset{path}
  {
    TwoPlayersShare(first, second, p, path);
    var actions := [Joining(first, p, path), Joining(second, p, path), Removes(p.address),
                    Joining(first, p, again), Unregisters(second)];
    assert actions[..2] == [Joining(first, p, path), Joining(second, p, path)] && actions[..5] == actions;
    PrefixStep(actions, 2);
    PrefixStep(actions, 3);
    PrefixStep(actions, 4);
    RemovedThenRegistered(first, second, p, path, again);
    SecondLeaves(first, second, p, path, again);
  }

  function Again(t: Table, p: Player, path: string, again: string): Table {
    t.(sessions := map[p.address := Session(again, p.port, 1, true)],
       created := multiset{path, again}, lost := multiset{path})
  }

  /** A registered player whose session was forgotten gets a new one with one user. */
  lemma RejoinsAlone(t: Table, player: string, again: string)
    requires player in t.players && t.players[player].address !in t.sessions
    ensures var p := t.players[player];
      Next(t, Joining(player, p, again)) ==
        t.(sessions := t.sessions[p.address := Session(again, p.port, 1, true)], created := t.created + multiset{again})
  {
    var p := t.players[player];
    var t1 := t.(players := t.players - {player});
    assert Unregister(t, player) == t1;
    assert t1.players[player := p] == t.players;
    assert t.removed + multiset{} == t.removed;
  }

  lemma RemovedThenRegistered(first: string, second: string, p: Player, path: string, again: string)
    requires first != second
    ensures var t := Shared(first, second, p, path);
      Next(Next(t, Removes(p.address)), Joining(first, p, again)) == Again(t, p, path, again)
  {
    var t := Shared(first, second, p, path);
    var t1 := t.(sessions := map[], lost := multiset{path});
    assert Next(t, Removes(p.address)) == t1;
    RejoinsAlone(t1, first, again);
  }

  lemma SecondLeaves(first: string, second: string, p: Player, path: string, again: string)
    requires first != second
    ensures Next(Again(Shared(first, second, p, path), p, path, again), Unregisters(second)) ==
      Table(map[first := p], map[], multiset{path, again}, multiset{again}, multiset{path}, multiset{})
  {
  }

  /** The exception for daemon signals is real. Once the session of some players has been forgotten
      and one of them is registered again, the new session counts one user, and registering the
      others of its address and port again changes nothing. So the count is exact again only if that
      player was alone there. */
  lemma ForgettingLosesCount(t: Table, player: string, path: string)
    requires player in t.players && t.players[player].address !in t.sessions
    ensures RegainsOneUser(t, player, path)
  {
    RejoinsAlone(t, player, path);
    var at := PlayersAt(t.players, t.players[player].address);
    assert player in at;
    assert |at - {player}| == |at| - 1;
  }

  ghost predicate RegainsOneUser(t: Table, player: string, path: string)
    requires player in t.players
  {
    var p := t.players[player];
    var t' := Register(t, player, p.devicePath, p.address, p.port, Absent, Created(path));
    && t'.players == t.players
    && p.address in t'.sessions && t'.sessions[p.address].users == 1
    && (forall q, lookup, creation |
          q in t.players && t.players[q].address == p.address && t.players[q].port == p.port ::
          Register(t', q, t.players[q].devicePath, p.address, p.port, lookup, creation) == t')
    && (t'.sessions[p.address].users == |PlayersAt(t'.players, p.address)|
        <==> PlayersAt(t.players, p.address) == {player})
  }

  /** Both signals do that: obexd restarting, and obexd removing the address's session. */
  lemma DaemonLosesCount(t: Table, order: seq<string>, player: string, path: string)
    requires player in t.players
    ensures RegainsOneUser(DaemonRestarted(t, order), player, path)
    ensures RegainsOneUser(SessionRemoved(t, t.players[player].address), player, path)
  {
    ForgettingLosesCount(DaemonRestarted(t, order), player, path);
    ForgettingLosesCount(SessionRemoved(t, t.players[player].address), player, path);
  }
}
