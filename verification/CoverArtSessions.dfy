/** Reference counting of OBEX sessions in CoverArtService (native/src/cover_art_service.cpp), as
    functions on its two maps, with a ledger of the sessions it created and removed.

    Every critical section is one step, so any interleaving of threads is a sequence of steps. */
module CoverArtSessions {
  import opened Wrappers
  import opened Orders

  datatype Player = Player(devicePath: string, address: string, port: nat)
  datatype Session = Session(objectPath: string, port: nat, users: nat, owned: bool)

  /** `created` are the sessions the service has created and heard of, and `unheard` those obexd made
      for a call that then reported an error. `lost` are owned sessions dropped from the table because
      the daemon said they are gone. */
  datatype Table = Table(
    players: map<string, Player>,
    sessions: map<string, Session>,
    created: multiset<string>,
    removed: multiset<string>,
    lost: multiset<string>,
    unheard: multiset<string>)

  const EMPTY := Table(map[], map[], multiset{}, multiset{}, multiset{}, multiset{})

  /** What find_session and create_session do when called; either may throw, the second even after
      obexd has made a session. */
  datatype Lookup = LookupThrows | Absent | Existing(path: string)
  datatype Creation = CreationThrows(made: Option<string>) | Created(path: string)

  // ---------------------------------------------------------------- the ledger

  function OwnedPath(x: Session): multiset<string> {
    if x.owned then multiset{x.objectPath} else multiset{}
  }

  /** The table entries that own the session at `path`. */
  function Owners(m: map<string, Session>, path: string): set<string> {
    set a | a in m && m[a].owned && m[a].objectPath == path
  }

  /** Every session heard of has been removed, was lost to the daemon, or is owned by the table. */
  ghost predicate BalancedAt(t: Table, path: string) {
    t.created[path] == t.removed[path] + t.lost[path] + |Owners(t.sessions, path)|
  }

  /** All sessions obexd made for this service. */
  function Made(t: Table): multiset<string> {
    t.created + t.unheard
  }

  lemma OwnersWithout(m: map<string, Session>, a: string, path: string)
    requires a in m
    ensures |Owners(m, path)| == |Owners(m - {a}, path)| + OwnedPath(m[a])[path]
  {
    if m[a].owned && m[a].objectPath == path {
      assert Owners(m, path) == Owners(m - {a}, path) + {a};
    } else {
      assert Owners(m, path) == Owners(m - {a}, path);
    }
  }

  lemma OwnersWith(m: map<string, Session>, a: string, x: Session, path: string)
    ensures |Owners(m[a := x], path)| == |Owners(m - {a}, path)| + OwnedPath(x)[path]
  {
    OwnersWithout(m[a := x], a, path);
    assert m[a := x] - {a} == m - {a};
  }

  // ---------------------------------------------------------------- users

  function PlayersAt(ps: map<string, Player>, address: string): set<string> {
    set p | p in ps && ps[p].address == address
  }

  /** No session has more users than its address has players, and none has no user. */
  ghost predicate Counted(t: Table) {
    forall a | a in t.sessions :: 1 <= t.sessions[a].users <= |PlayersAt(t.players, a)|
  }

  /** Each session has as many users as its address has players, and each player a session. */
  ghost predicate Exact(t: Table) {
    && (forall a | a in t.sessions :: t.sessions[a].users == |PlayersAt(t.players, a)|)
    && (forall p | p in t.players :: t.players[p].address in t.sessions)
  }

  lemma PlayersWithout(ps: map<string, Player>, p: string, address: string)
    requires p in ps
    ensures |PlayersAt(ps, address)| == |PlayersAt(ps - {p}, address)| + if ps[p].address == address then 1 else 0
  {
    if ps[p].address == address {
      assert PlayersAt(ps, address) == PlayersAt(ps - {p}, address) + {p};
    } else {
      assert PlayersAt(ps, address) == PlayersAt(ps - {p}, address);
    }
  }

  lemma PlayersWith(ps: map<string, Player>, p: string, player: Player, address: string)
    requires p !in ps
    ensures |PlayersAt(ps[p := player], address)| ==
      |PlayersAt(ps, address)| + if player.address == address then 1 else 0
  {
    PlayersWithout(ps[p := player], p, address);
    assert ps[p := player] - {p} == ps;
  }

  // ---------------------------------------------------------------- steps

  /** remove_session on a table entry, if this service owns it. */
  function Release(t: Table, x: Session): Table {
    t.(removed := t.removed + OwnedPath(x))
  }

  /** Decrementing a size_t. */
  function Decremented(users: nat): nat {
    if users == 0 then 0xFFFF_FFFF_FFFF_FFFF else users - 1
  }

  /** unregister_player_locked. */
  function Unregister(t: Table, player: string): Table {
    if player !in t.players then t
    else
      var address := t.players[player].address;
      var t1 := t.(players := t.players - {player});
      if address !in t1.sessions then t1
      else
        var x := t1.sessions[address];
        if Decremented(x.users) != 0 then t1.(sessions := t1.sessions[address := x.(users := Decremented(x.users))])
        else Release(t1, x).(sessions := t1.sessions - {address})
  }

  /** Both tests of register_player: the player is known with this device, and its session has
      this port. */
  predicate UpToDate(t: Table, player: string, devicePath: string, port: nat) {
    && player in t.players && t.players[player].devicePath == devicePath
    && t.players[player].address in t.sessions
    && t.sessions[t.players[player].address].port == port
  }

  /** A session for the address: an existing one, or else a new one, or an exception. */
  function Obtain(lookup: Lookup, creation: Creation, port: nat, users: nat): Option<Session> {
    match lookup
    case LookupThrows => None
    case Existing(path) => Some(Session(path, port, users, false))
    case Absent => if creation.CreationThrows? then None else Some(Session(creation.path, port, users, true))
  }

  /** A session made by a call that throws. */
  function Unheard(lookup: Lookup, creation: Creation): multiset<string> {
    if lookup.Absent? && creation.CreationThrows? && creation.made.Some? then multiset{creation.made.value}
    else multiset{}
  }

  function Miss(t: Table, made: multiset<string>): Table {
    t.(unheard := t.unheard + made)
  }

  /** The second critical section of register_player, entered with the device's address. */
  function Register(t: Table, player: string, devicePath: string, address: string, port: nat,
                    lookup: Lookup, creation: Creation): Table {
    if UpToDate(t, player, devicePath, port) then t
    else Enter(Unregister(t, player), player, Player(devicePath, address, port), lookup, creation)
  }

  /** Its second half: join the address's session, made or replaced if it has not this port. */
  function Enter(t: Table, player: string, p: Player, lookup: Lookup, creation: Creation): Table {
    if HasPort(t, p.address, p.port) then Join(t, player, p)
    else
      var x := Obtain(lookup, creation, p.port, UsersAt(t, p.address));
      if x.None? then Miss(t, Unheard(lookup, creation)) else Join(Install(t, p.address, x.value), player, p)
  }

  predicate HasPort(t: Table, address: string, port: nat) {
    address in t.sessions && t.sessions[address].port == port
  }

  function UsersAt(t: Table, address: string): nat {
    if address in t.sessions then t.sessions[address].users else 0
  }

  /** The obtained session takes the place of the address's old one, which is released. */
  function Install(t: Table, address: string, x: Session): Table {
    t.(created := t.created + OwnedPath(x),
       removed := t.removed + OwnedAt(t.sessions, address),
       sessions := t.sessions[address := x])
  }

  function OwnedAt(m: map<string, Session>, address: string): multiset<string> {
    if address in m then OwnedPath(m[address]) else multiset{}
  }

  /** One more user for the session, and the player. */
  function Join(t: Table, player: string, p: Player): Table
    requires p.address in t.sessions
  {
    var x := t.sessions[p.address];
    t.(sessions := t.sessions[p.address := x.(users := x.users + 1)], players := t.players[player := p])
  }

  /** invalidate_player_session. */
  function Invalidate(t: Table, player: string): Table {
    if player !in t.players then t
    else
      var address := t.players[player].address;
      var t1 := t.(players := map p | p in t.players && t.players[p].address != address :: t.players[p]);
      if address !in t1.sessions then t1
      else Release(t1, t1.sessions[address]).(sessions := t1.sessions - {address})
  }

  /** What releasing the listed entries one by one adds to the ledger. */
  function Paths(m: map<string, Session>, order: seq<string>): multiset<string> {
    if order == [] then multiset{}
    else
      var last := order[|order| - 1];
      Paths(m, order[..|order| - 1]) + if last in m then OwnedPath(m[last]) else multiset{}
  }

  /** reset, releasing the sessions in this order. */
  function Reset(t: Table, order: seq<string>): Table {
    t.(players := map[], sessions := map[], removed := t.removed + Paths(t.sessions, order))
  }

  /** obexd changed owner: its sessions are gone, whoever created them. */
  function DaemonRestarted(t: Table, order: seq<string>): Table {
    t.(sessions := map[], lost := t.lost + Paths(t.sessions, order))
  }

  /** obexd removed a session; the first entry found with its path is dropped. */
  function SessionRemoved(t: Table, address: string): Table {
    if address !in t.sessions then t
    else t.(sessions := t.sessions - {address}, lost := t.lost + OwnedPath(t.sessions[address]))
  }

  datatype Action =
    | Registers(player: string, devicePath: string, address: string, port: nat, lookup: Lookup, creation: Creation)
    | Unregisters(player: string)
    | Invalidates(player: string)
    | Resets(order: seq<string>)
    | Restarts(order: seq<string>)
    | Removes(address: string)

  ghost predicate Enabled(t: Table, a: Action) {
    match a
    case Resets(order) => Enumerates(order, t.sessions.Keys)
    case Restarts(order) => Enumerates(order, t.sessions.Keys)
    case _ => true
  }

  function Next(t: Table, a: Action): Table {
    match a
    case Registers(player, devicePath, address, port, lookup, creation) =>
      Register(t, player, devicePath, address, port, lookup, creation)
    case Unregisters(player) => Unregister(t, player)
    case Invalidates(player) => Invalidate(t, player)
    case Resets(order) => Reset(t, order)
    case Restarts(order) => DaemonRestarted(t, order)
    case Removes(address) => SessionRemoved(t, address)
  }

  /** The daemon's own signals. */
  predicate FromDaemon(a: Action) {
    a.Restarts? || a.Removes?
  }

  /** A registration whose CreateSession reports an error although obexd has made the session. */
  predicate FailsUnheard(a: Action) {
    a.Registers? && Unheard(a.lookup, a.creation) != multiset{}
  }

  // ---------------------------------------------------------------- counts along every step

  lemma UnregisterKeepsCounted(t: Table, player: string)
    requires Counted(t)
    ensures Counted(Unregister(t, player))
  {
    var t' := Unregister(t, player);
    if player in t.players {
      forall a | a in t'.sessions
        ensures 1 <= t'.sessions[a].users <= |PlayersAt(t'.players, a)|
      {
        PlayersWithout(t.players, player, a);
      }
    }
  }

  lemma UnregisterKeepsExact(t: Table, player: string)
    requires Counted(t) && Exact(t)
    ensures Exact(Unregister(t, player))
  {
    var t' := Unregister(t, player);
    if player in t.players {
      var address := t.players[player].address;
      forall a | a in t'.sessions
        ensures t'.sessions[a].users == |PlayersAt(t'.players, a)|
      {
        PlayersWithout(t.players, player, a);
      }
      forall p | p in t'.players
        ensures t'.players[p].address in t'.sessions
      {
        PlayersWithout(t.players, player, address);
        if t'.players[p].address == address { assert p in PlayersAt(t.players - {player}, address); }
      }
    }
  }

  lemma JoinCounts(t: Table, player: string, p: Player)
    requires player !in t.players && p.address in t.sessions
    requires t.sessions[p.address].users <= |PlayersAt(t.players, p.address)|
    requires forall a | a in t.sessions && a != p.address :: 1 <= t.sessions[a].users <= |PlayersAt(t.players, a)|
    ensures Counted(Join(t, player, p))
    ensures Exact(t) ==> Exact(Join(t, player, p))
  {
    forall a: string
      ensures |PlayersAt(t.players[player := p], a)| == |PlayersAt(t.players, a)| + if p.address == a then 1 else 0
    {
      PlayersWith(t.players, player, p, a);
    }
  }

  lemma InstallCounts(t: Table, address: string, x: Session)
    requires Counted(t) && x.users == UsersAt(t, address)
    ensures var t' := Install(t, address, x);
      && t'.players == t.players && t'.sessions == t.sessions[address := x]
      && x.users <= |PlayersAt(t.players, address)|
      && (Exact(t) ==> Exact(t'))
  {
    if Exact(t) && address !in t.sessions {
      assert PlayersAt(t.players, address) == {};
    }
  }

  lemma EnterCounts(t: Table, player: string, p: Player, lookup: Lookup, creation: Creation)
    requires Counted(t) && player !in t.players
    ensures Counted(Enter(t, player, p, lookup, creation))
    ensures Exact(t) ==> Exact(Enter(t, player, p, lookup, creation))
  {
    if HasPort(t, p.address, p.port) {
      JoinCounts(t, player, p);
    } else {
      var x := Obtain(lookup, creation, p.port, UsersAt(t, p.address));
      if x.Some? {
        InstallCounts(t, p.address, x.value);
        JoinCounts(Install(t, p.address, x.value), player, p);
      }
    }
  }

  lemma RegisterCounts(t: Table, player: string, devicePath: string, address: string, port: nat,
                       lookup: Lookup, creation: Creation)
    requires Counted(t)
    ensures Counted(Register(t, player, devicePath, address, port, lookup, creation))
    ensures Exact(t) ==> Exact(Register(t, player, devicePath, address, port, lookup, creation))
  {
    UnregisterKeepsCounted(t, player);
    if Exact(t) { UnregisterKeepsExact(t, player); }
    EnterCounts(Unregister(t, player), player, Player(devicePath, address, port), lookup, creation);
  }

  lemma InvalidateCounts(t: Table, player: string)
    requires Counted(t)
    ensures Counted(Invalidate(t, player))
    ensures Exact(t) ==> Exact(Invalidate(t, player))
  {
    var t' := Invalidate(t, player);
    if player in t.players {
      forall a | a != t.players[player].address
        ensures PlayersAt(t'.players, a) == PlayersAt(t.players, a)
      {
      }
    }
  }

  lemma StepCounts(t: Table, a: Action)
    requires Counted(t)
    ensures Counted(Next(t, a))
    ensures Exact(t) && !FromDaemon(a) ==> Exact(Next(t, a))
  {
    match a
    case Registers(player, devicePath, address, port, lookup, creation) =>
      RegisterCounts(t, player, devicePath, address, port, lookup, creation);
    case Unregisters(player) =>
      UnregisterKeepsCounted(t, player);
      if Exact(t) { UnregisterKeepsExact(t, player); }
    case Invalidates(player) => InvalidateCounts(t, player);
    case _ =>
  }

  // ---------------------------------------------------------------- balance along every step

  lemma UnregisterBalances(t: Table, player: string, path: string)
    requires BalancedAt(t, path)
    ensures BalancedAt(Unregister(t, player), path)
  {
    if player in t.players {
      var address := t.players[player].address;
      if address in t.sessions {
        var x := t.sessions[address];
        OwnersWithout(t.sessions, address, path);
        OwnersWith(t.sessions, address, x.(users := Decremented(x.users)), path);
      }
    }
  }

  lemma JoinBalances(t: Table, player: string, p: Player, path: string)
    requires p.address in t.sessions && BalancedAt(t, path)
    ensures BalancedAt(Join(t, player, p), path)
  {
    var x := t.sessions[p.address];
    OwnersWithout(t.sessions, p.address, path);
    OwnersWith(t.sessions, p.address, x.(users := x.users + 1), path);
  }

  lemma InstallBalances(t: Table, address: string, x: Session, path: string)
    requires BalancedAt(t, path)
    ensures BalancedAt(Install(t, address, x), path)
  {
    if address in t.sessions {
      OwnersWithout(t.sessions, address, path);
    } else {
      assert t.sessions - {address} == t.sessions;
    }
    OwnersWith(t.sessions, address, x, path);
  }

  lemma EnterBalances(t: Table, player: string, p: Player, lookup: Lookup, creation: Creation, path: string)
    requires BalancedAt(t, path)
    ensures BalancedAt(Enter(t, player, p, lookup, creation), path)
  {
    if HasPort(t, p.address, p.port) {
      JoinBalances(t, player, p, path);
    } else {
      var x := Obtain(lookup, creation, p.port, UsersAt(t, p.address));
      if x.Some? {
        InstallBalances(t, p.address, x.value, path);
        JoinBalances(Install(t, p.address, x.value), player, p, path);
      }
    }
  }

  lemma RegisterBalances(t: Table, player: string, devicePath: string, address: string, port: nat,
                         lookup: Lookup, creation: Creation, path: string)
    requires BalancedAt(t, path)
    ensures BalancedAt(Register(t, player, devicePath, address, port, lookup, creation), path)
  {
    UnregisterBalances(t, player, path);
    EnterBalances(Unregister(t, player), player, Player(devicePath, address, port), lookup, creation, path);
  }

  lemma InvalidateBalances(t: Table, player: string, path: string)
    requires BalancedAt(t, path)
    ensures BalancedAt(Invalidate(t, player), path)
  {
    if player in t.players && t.players[player].address in t.sessions {
      OwnersWithout(t.sessions, t.players[player].address, path);
    }
  }

  /** Releasing every entry once covers every owned session. */
  lemma {:induction false} PathsCountOwners(m: map<string, Session>, order: seq<string>, path: string)
    requires forall i, j | 0 <= i < j < |order| :: order[i] != order[j]
    ensures Paths(m, order)[path] == |set a | a in Owners(m, path) && a in order|
  {
    if order == [] {
      assert (set a | a in Owners(m, path) && a in order) == {};
    } else {
      var last, front := order[|order| - 1], order[..|order| - 1];
      PathsCountOwners(m, front, path);
      var before := set a | a in Owners(m, path) && a in front;
      var after := set a | a in Owners(m, path) && a in order;
      assert last !in front;
      assert forall a :: a in order <==> a in front || a == last;
      if last in Owners(m, path) {
        assert after == before + {last};
      } else {
        assert after == before;
      }
    }
  }

  lemma PathsCountAll(m: map<string, Session>, order: seq<string>, path: string)
    requires Enumerates(order, m.Keys)
    ensures Paths(m, order)[path] == |Owners(m, path)|
  {
    PathsCountOwners(m, order, path);
    assert Owners(m, path) == set a | a in Owners(m, path) && a in order;
  }

  lemma StepBalances(t: Table, a: Action, path: string)
    requires BalancedAt(t, path) && Enabled(t, a)
    ensures BalancedAt(Next(t, a), path)
  {
    match a
    case Registers(player, devicePath, address, port, lookup, creation) =>
      RegisterBalances(t, player, devicePath, address, port, lookup, creation, path);
    case Unregisters(player) => UnregisterBalances(t, player, path);
    case Invalidates(player) => InvalidateBalances(t, player, path);
    case Resets(order) => PathsCountAll(t.sessions, order, path);
    case Restarts(order) => PathsCountAll(t.sessions, order, path);
    case Removes(address) => if address in t.sessions { OwnersWithout(t.sessions, address, path); }
  }

  // ---------------------------------------------------------------- runs

  ghost predicate Runs(t: Table, actions: seq<Action>)
    decreases |actions|
  {
    actions == [] || (Enabled(t, actions[0]) && Runs(Next(t, actions[0]), actions[1..]))
  }

  function After(t: Table, actions: seq<Action>): Table
    decreases |actions|
  {
    if actions == [] then t else After(Next(t, actions[0]), actions[1..])
  }

  lemma {:induction false} RunSnoc(t: Table, actions: seq<Action>, a: Action)
    ensures After(t, actions + [a]) == Next(After(t, actions), a)
    ensures Runs(t, actions) && Enabled(After(t, actions), a) ==> Runs(t, actions + [a])
    decreases |actions|
  {
    var more := actions + [a];
    if actions == [] {
      assert more[1..] == [] && more[0] == a;
      assert After(Next(t, a), []) == Next(t, a) && Runs(Next(t, a), []);
    } else {
      RunSnoc(Next(t, actions[0]), actions[1..], a);
      assert more[1..] == actions[1..] + [a] && more[0] == actions[0];
    }
  }

  lemma {:induction false} RunCounts(t: Table, actions: seq<Action>)
    requires Counted(t)
    ensures Counted(After(t, actions))
    ensures Exact(t) && (forall a | a in actions :: !FromDaemon(a)) ==> Exact(After(t, actions))
    decreases |actions|
  {
    if actions != [] {
      StepCounts(t, actions[0]);
      RunCounts(Next(t, actions[0]), actions[1..]);
    }
  }

  /** Every session has between one user and as many as its address has players, in every state;
      in particular a user count is never decremented below zero. Without daemon signals the count
      is exact and the sessions are those of the players' addresses. Calls that throw are included. */
  lemma SessionCounts(actions: seq<Action>)
    ensures Counted(After(EMPTY, actions))
    ensures (forall a | a in actions :: !FromDaemon(a)) ==>
      var t := After(EMPTY, actions);
      && Exact(t)
      && forall address :: address in t.sessions <==> exists p | p in t.players :: t.players[p].address == address
  {
    RunCounts(EMPTY, actions);
    var t := After(EMPTY, actions);
    forall address | address in t.sessions
      ensures exists p | p in t.players :: t.players[p].address == address
    {
      if PlayersAt(t.players, address) != {} {
        var p :| p in PlayersAt(t.players, address);
      }
    }
  }

  lemma StepLedgers(t: Table, a: Action)
    ensures !FromDaemon(a) ==> Next(t, a).lost == t.lost
    ensures !FailsUnheard(a) ==> Next(t, a).unheard == t.unheard
  {
    if a.Registers? {
      var t1 := Unregister(t, a.player);
      assert t1.unheard == t.unheard && t1.lost == t.lost;
      EnterLedgers(t1, a.player, Player(a.devicePath, a.address, a.port), a.lookup, a.creation);
    }
  }

  lemma EnterLedgers(t: Table, player: string, p: Player, lookup: Lookup, creation: Creation)
    ensures var t' := Enter(t, player, p, lookup, creation);
      t'.lost == t.lost && (Unheard(lookup, creation) == multiset{} ==> t'.unheard == t.unheard)
  {
  }

  /** A registration in this table leaves a session behind that obexd has made and the service has
      not heard of: it needs one, finds none, and creating it reports an error. */
  predicate LeavesUnheard(t: Table, a: Action) {
    && a.Registers? && !UpToDate(t, a.player, a.devicePath, a.port)
    && !HasPort(Unregister(t, a.player), a.address, a.port)
    && a.lookup.Absent? && a.creation.CreationThrows? && a.creation.made.Some?
  }

  lemma StepUnheard(t: Table, a: Action)
    ensures Next(t, a).unheard != t.unheard <==> LeavesUnheard(t, a)
    ensures t.unheard <= Next(t, a).unheard
  {
    if a.Registers? {
      var t1, p := Unregister(t, a.player), Player(a.devicePath, a.address, a.port);
      assert t1.unheard == t.unheard;
      if !UpToDate(t, a.player, a.devicePath, a.port) {
        EnterUnheard(t1, a.player, p, a.lookup, a.creation);
      }
    }
  }

  lemma EnterUnheard(t: Table, player: string, p: Player, lookup: Lookup, creation: Creation)
    ensures Enter(t, player, p, lookup, creation).unheard ==
      if HasPort(t, p.address, p.port) then t.unheard else t.unheard + Unheard(lookup, creation)
    ensures t.unheard + Unheard(lookup, creation) != t.unheard
      <==> lookup.Absent? && creation.CreationThrows? && creation.made.Some?
  {
    if lookup.Absent? && creation.CreationThrows? && creation.made.Some? {
      var path := creation.made.value;
      assert (t.unheard + Unheard(lookup, creation))[path] == t.unheard[path] + 1;
    }
  }

  /** Over a whole run, sessions go unheard exactly through such registrations. */
  lemma {:induction false} RunUnheard(actions: seq<Action>)
    ensures After(EMPTY, actions).unheard == multiset{}
      <==> forall i | 0 <= i < |actions| :: !LeavesUnheard(After(EMPTY, actions[..i]), actions[i])
  {
    if actions != [] {
      var n := |actions| - 1;
      var front, t := actions[..n], After(EMPTY, actions[..n]);
      assert actions == front + [actions[n]];
      RunSnoc(EMPTY, front, actions[n]);
      RunUnheard(front);
      StepUnheard(t, actions[n]);
      assert forall i | 0 <= i < n :: front[i] == actions[i] && front[..i] == actions[..i];
    }
  }

  /** One registration whose CreateSession fails late is such a run. */
  lemma UnheardSession(player: string, p: Player, path: string)
    ensures var a := Registers(player, p.devicePath, p.address, p.port, Absent, CreationThrows(Some(path)));
      && After(EMPTY, [a]) == EMPTY.(unheard := multiset{path})
  {
    var a := Registers(player, p.devicePath, p.address, p.port, Absent, CreationThrows(Some(path)));
    assert Unregister(EMPTY, player) == EMPTY;
    assert Next(EMPTY, a) == EMPTY.(unheard := multiset{path});
    assert [a][1..] == [];
    assert After(Next(EMPTY, a), []) == Next(EMPTY, a);
  }

  lemma {:induction false} RunBalances(t: Table, actions: seq<Action>, path: string)
    requires BalancedAt(t, path) && Runs(t, actions)
    ensures BalancedAt(After(t, actions), path)
    ensures (forall a | a in actions :: !FromDaemon(a)) ==> After(t, actions).lost == t.lost
    ensures (forall a | a in actions :: !FailsUnheard(a)) ==> After(t, actions).unheard == t.unheard
    decreases |actions|
  {
    if actions != [] {
      StepBalances(t, actions[0], path);
      StepLedgers(t, actions[0]);
      RunBalances(Next(t, actions[0]), actions[1..], path);
    }
  }

  /** Conservation: in every run each session path was created exactly as often as it was removed,
      lost to the daemon, is still owned, or was created by a call that then failed. */
  lemma SessionsConserved(actions: seq<Action>, path: string)
    requires Runs(EMPTY, actions)
    ensures var t := After(EMPTY, actions);
      && BalancedAt(t, path)
      && Made(t)[path] == t.removed[path] + t.lost[path] + |Owners(t.sessions, path)| + t.unheard[path]
    ensures (forall a | a in actions :: !FromDaemon(a)) ==> After(EMPTY, actions).lost == multiset{}
    ensures (forall a | a in actions :: !FailsUnheard(a)) ==> After(EMPTY, actions).unheard == multiset{}
  {
    assert Owners(EMPTY.sessions, path) == {};
    RunBalances(EMPTY, actions, path);
  }

  /** A step removes no session that the table does not own, and none more often than it owns it;
      however a session came to be found, finding it does not make it removable. */
  lemma OnlyOwnedAreRemoved(t: Table, a: Action, path: string)
    requires BalancedAt(t, path) && Enabled(t, a)
    ensures Next(t, a).removed[path] <= t.removed[path] + |Owners(t.sessions, path)|
  {
    match a
    case Registers(player, devicePath, address, port, lookup, creation) =>
      UnregisterRemovals(t, player, path);
      EnterRemovals(Unregister(t, player), player, Player(devicePath, address, port), lookup, creation, path);
    case Unregisters(player) => UnregisterRemovals(t, player, path);
    case Invalidates(player) =>
      if player in t.players && t.players[player].address in t.sessions {
        OwnersWithout(t.sessions, t.players[player].address, path);
      }
    case Resets(order) => PathsCountAll(t.sessions, order, path);
    case Restarts(order) =>
    case Removes(address) =>
  }

  lemma UnregisterRemovals(t: Table, player: string, path: string)
    ensures var t' := Unregister(t, player);
      t'.removed[path] + |Owners(t'.sessions, path)| == t.removed[path] + |Owners(t.sessions, path)|
  {
    if player in t.players && t.players[player].address in t.sessions {
      var address := t.players[player].address;
      var x := t.sessions[address];
      OwnersWithout(t.sessions, address, path);
      OwnersWith(t.sessions, address, x.(users := Decremented(x.users)), path);
    }
  }

  lemma EnterRemovals(t: Table, player: string, p: Player, lookup: Lookup, creation: Creation, path: string)
    ensures Enter(t, player, p, lookup, creation).removed[path] <= t.removed[path] + |Owners(t.sessions, path)|
  {
    if p.address in t.sessions { OwnersWithout(t.sessions, p.address, path); }
  }

  lemma EnterCreates(t: Table, player: string, p: Player, lookup: Lookup, creation: Creation, path: string)
    requires creation != Created(path)
    ensures Enter(t, player, p, lookup, creation).created[path] == t.created[path]
  {
    var x := Obtain(lookup, creation, p.port, UsersAt(t, p.address));
    assert x.Some? ==> OwnedPath(x.value)[path] == 0;
  }

  lemma StepCreates(t: Table, a: Action, path: string)
    requires a.Registers? ==> a.creation != Created(path)
    ensures Next(t, a).created[path] == t.created[path]
  {
    if a.Registers? {
      var t1 := Unregister(t, a.player);
      assert t1.created == t.created;
      EnterCreates(t1, a.player, Player(a.devicePath, a.address, a.port), a.lookup, a.creation, path);
    }
  }

  lemma {:induction false} OnlyCreatedPathsGrow(t: Table, actions: seq<Action>, path: string)
    requires t.created[path] == 0
    requires forall a | a in actions :: a.Registers? ==> a.creation != Created(path)
    ensures After(t, actions).created[path] == 0
    decreases |actions|
  {
    if actions != [] {
      StepCreates(t, actions[0], path);
      OnlyCreatedPathsGrow(Next(t, actions[0]), actions[1..], path);
    }
  }

  /** No session is removed more often than this service created it and heard of it; one that it
      never did is never removed, however often it was found. */
  lemma FoundSessionsAreKept(actions: seq<Action>, path: string)
    requires Runs(EMPTY, actions)
    ensures var t := After(EMPTY, actions);
      && t.removed[path] <= t.created[path]
      && ((forall a | a in actions :: a.Registers? ==> a.creation != Created(path)) ==> t.removed[path] == 0)
  {
    SessionsConserved(actions, path);
    if forall a | a in actions :: a.Registers? ==> a.creation != Created(path) {
      OnlyCreatedPathsGrow(EMPTY, actions, path);
    }
  }

  /** After a reset, and without daemon signals, every session heard of has been removed, exactly as
      often as it was created; so nothing is left behind if and only if no registration that needed a
      session and found none had its creation fail after obexd had made the session. */
  lemma ResetRemovesAll(actions: seq<Action>, order: seq<string>)
    requires Runs(EMPTY, actions) && Enumerates(order, After(EMPTY, actions).sessions.Keys)
    requires forall a | a in actions :: !FromDaemon(a)
    ensures var t := Reset(After(EMPTY, actions), order);
      && t.created == t.removed && t.sessions == map[] && t.players == map[]
      && (Made(t) == t.removed <==> t.unheard == multiset{})
      && (Made(t) == t.removed
          <==> forall i | 0 <= i < |actions| :: !LeavesUnheard(After(EMPTY, actions[..i]), actions[i]))
  {
    var t := After(EMPTY, actions);
    var t' := Reset(t, order);
    forall path: string
      ensures t'.created[path] == t'.removed[path]
    {
      SessionsConserved(actions, path);
      PathsCountAll(t.sessions, order, path);
    }
    if Made(t') == t'.removed {
      assert |t'.created + t'.unheard| == |t'.created| + |t'.unheard|;
    }
    RunUnheard(actions);
  }

  // ---------------------------------------------------------------- register_player as a whole

  datatype AddressReply = AddressThrows | Address(text: string)

  /** What the calls made for one registration answer. */
  datatype Answers = Answers(address: AddressReply, lookup: Lookup, creation: Creation)

  /** register_player when nothing runs between its critical sections. */
  function RegisterPlayer(t: Table, player: string, devicePath: string, port: nat, answers: Answers): Table {
    if player == "" || devicePath == "" || port == 0 then Unregister(t, player)
    else if UpToDate(t, player, devicePath, port) then t
    else AfterLookup(t, player, devicePath, port, answers)
  }

  /** Its part after the unlocked device lookup. */
  function AfterLookup(t: Table, player: string, devicePath: string, port: nat, answers: Answers): Table {
    match answers.address
    case AddressThrows => t
    case Address(text) =>
      if text == "" then Unregister(t, player)
      else Register(t, player, devicePath, text, port, answers.lookup, answers.creation)
  }

  /** No call needed by the registration throws. */
  predicate Completes(t: Table, player: string, devicePath: string, port: nat, answers: Answers) {
    || player == "" || devicePath == "" || port == 0
    || UpToDate(t, player, devicePath, port)
    || CompletesAfterLookup(t, player, devicePath, port, answers)
  }

  predicate CompletesAfterLookup(t: Table, player: string, devicePath: string, port: nat, answers: Answers) {
    && answers.address.Address?
    && (answers.address.text != "" && !UpToDate(t, player, devicePath, port) ==>
          var t1 := Unregister(t, player);
          HasPort(t1, answers.address.text, port) || Obtain(answers.lookup, answers.creation, port, 0).Some?)
  }

  /** Registering the listed players one after the other with what was known of them at first. */
  function ReconnectAll(t: Table, known: map<string, Player>, order: seq<string>, answers: string -> Answers): Table
    requires forall p | p in order :: p in known
  {
    if order == [] then t
    else
      var last := order[|order| - 1];
      RegisterPlayer(ReconnectAll(t, known, order[..|order| - 1], answers),
                     last, known[last].devicePath, known[last].port, answers(last))
  }

  /** None of those registrations throws. */
  predicate ReconnectCompletes(t: Table, known: map<string, Player>, order: seq<string>, answers: string -> Answers)
    requires forall p | p in order :: p in known
  {
    order == [] ||
    var last, front := order[|order| - 1], order[..|order| - 1];
    ReconnectCompletes(t, known, front, answers)
    && Completes(ReconnectAll(t, known, front, answers), last, known[last].devicePath, known[last].port, answers(last))
  }

  /** register_player and reconnect_players add no behaviour to the steps. */
  lemma RegisterPlayerKeeps(t: Table, player: string, devicePath: string, port: nat, answers: Answers, path: string)
    requires Counted(t) && BalancedAt(t, path)
    ensures Counted(RegisterPlayer(t, player, devicePath, port, answers))
    ensures BalancedAt(RegisterPlayer(t, player, devicePath, port, answers), path)
  {
    var unregisters := Unregisters(player);
    StepCounts(t, unregisters);
    StepBalances(t, unregisters, path);
    if answers.address.Address? {
      var registers := Registers(player, devicePath, answers.address.text, port, answers.lookup, answers.creation);
      StepCounts(t, registers);
      StepBalances(t, registers, path);
    }
  }

  lemma {:induction false} ReconnectKeeps(t: Table, known: map<string, Player>, order: seq<string>,
                                          answers: string -> Answers, path: string)
    requires forall p | p in order :: p in known
    requires Counted(t) && BalancedAt(t, path)
    ensures Counted(ReconnectAll(t, known, order, answers)) && BalancedAt(ReconnectAll(t, known, order, answers), path)
  {
    if order != [] {
      var last, front := order[|order| - 1], order[..|order| - 1];
      ReconnectKeeps(t, known, front, answers, path);
      RegisterPlayerKeeps(ReconnectAll(t, known, front, answers), last, known[last].devicePath, known[last].port,
                          answers(last), path);
    }
  }

  /** The calls made for the player succeed and name the address it is known at. */
  predicate Succeeds(p: Player, a: Answers) {
    && a.address == Address(p.address)
    && Obtain(a.lookup, a.creation, p.port, 0).Some?
  }

  predicate Registered(player: string, p: Player) {
    player != "" && p.devicePath != "" && p.address != "" && p.port != 0
  }

  lemma RegisterRestores(t: Table, player: string, answers: Answers)
    requires player in t.players && Registered(player, t.players[player]) && Succeeds(t.players[player], answers)
    ensures var p := t.players[player]; var t' := RegisterPlayer(t, player, p.devicePath, p.port, answers);
      && t'.players == t.players && p.address in t'.sessions
      && (forall a | a in t.sessions :: a in t'.sessions)
  {
    var p := t.players[player];
    if !UpToDate(t, player, p.devicePath, p.port) {
      var t1 := Unregister(t, player);
      assert t1.players == t.players - {player};
      assert t.players == t1.players[player := p];
      assert forall a | a in t.sessions && a != p.address :: a in t1.sessions;
      EnterRestores(t1, player, p, answers.lookup, answers.creation);
    }
  }

  lemma EnterRestores(t: Table, player: string, p: Player, lookup: Lookup, creation: Creation)
    requires Obtain(lookup, creation, p.port, 0).Some?
    ensures var t' := Enter(t, player, p, lookup, creation);
      && t'.players == t.players[player := p]
      && (forall a :: a in t'.sessions <==> a in t.sessions || a == p.address)
  {
    if !HasPort(t, p.address, p.port) {
      var x := Obtain(lookup, creation, p.port, UsersAt(t, p.address));
      assert Enter(t, player, p, lookup, creation) == Join(Install(t, p.address, x.value), player, p);
    }
  }

  /** After obexd restarts, reconnecting gives every player's address a session again if no call
      fails; ReconnectKeeps still bounds the users, though they need not be exact. */
  lemma {:induction false} ReconnectRestores(t: Table, order: seq<string>, answers: string -> Answers)
    requires forall p | p in order ::
               p in t.players && Registered(p, t.players[p]) && Succeeds(t.players[p], answers(p))
    ensures var t' := ReconnectAll(t, t.players, order, answers);
      && t'.players == t.players
      && (forall p | p in order :: t.players[p].address in t'.sessions)
  {
    if order != [] {
      var last, front := order[|order| - 1], order[..|order| - 1];
      assert order == front + [last];
      assert last in order;
      ReconnectRestores(t, front, answers);
      RegisterRestores(ReconnectAll(t, t.players, front, answers), last, answers(last));
    }
  }
}
