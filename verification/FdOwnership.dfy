/** Who owns an acquired transport descriptor: the token table of native/src/bluez_media_client.cpp,
    the pending sets of its clients, and the kernel's descriptor numbers, which are reused.

    Every entry point holds the registry's mutex, so each is one step. What a number stands for is
    an open instance, identified by its place in the order of opening. */
module FdOwnership {
  import opened Orders

  type Token = nat
  type Fd = nat
  type Handle = nat
  type Instance = nat

  /** `numbers` lists the number given to each instance ever opened, `held` are descriptors that an
      operation in progress has acquired and not yet retained, and `closed` counts the closes done
      by the library. */
  datatype Kernel = Kernel(open: map<Fd, Instance>, numbers: seq<Fd>, held: set<Fd>, closed: multiset<Instance>)

  /** `origin` and `tokenOf` relate each token to the instance retained under it. */
  datatype Table = Table(
    fds: map<Token, Fd>, nextToken: Token, origin: map<Token, Instance>, tokenOf: map<Instance, Token>)

  /** A client, which is in the registry until it is retired. */
  datatype Client = Client(registered: bool, pending: set<Token>)

  /** The clients not yet destroyed; `home` is the client a token was retained for. */
  datatype Clients = Clients(
    known: map<Handle, Client>, nextHandle: Handle, home: map<Token, Handle>, claimed: set<Token>)

  datatype State = State(kernel: Kernel, table: Table, clients: Clients)

  const INITIAL := State(Kernel(map[], [], {}, multiset{}), Table(map[], 1, map[], map[]), Clients(map[], 1, map[], {}))

  // ---------------------------------------------------------------- steps

  /** close(2) called by the library; EBADF changes nothing. */
  function Close(k: Kernel, n: Fd): Kernel {
    if n in k.open then k.(open := k.open - {n}, closed := k.closed + multiset{k.open[n]}) else k
  }

  /** Opening gives a number that is free. */
  function Open(k: Kernel, n: Fd): Kernel {
    k.(open := k.open[n := |k.numbers|], numbers := k.numbers + [n])
  }

  /** Closing a tabled descriptor and dropping its token. */
  function Drop(s: State, t: Token): State {
    if t !in s.table.fds then s
    else s.(kernel := Close(s.kernel, s.table.fds[t]), table := s.table.(fds := s.table.fds - {t}))
  }

  function DropAll(s: State, order: seq<Token>): State {
    if order == [] then s else Drop(DropAll(s, order[..|order| - 1]), order[|order| - 1])
  }

  /** Registered clients forget these tokens; retired ones are out of reach. */
  function Forget(c: Clients, tokens: set<Token>): Clients {
    c.(known := Forgetting(c.known, tokens))
  }

  function Forgetting(known: map<Handle, Client>, tokens: set<Token>): map<Handle, Client> {
    map h | h in known :: if known[h].registered then Client(true, known[h].pending - tokens) else known[h]
  }

  /** retain_fd, for a client registered or already retired. */
  function Retain(s: State, h: Handle, n: Fd): State
    requires n in s.kernel.open && h in s.clients.known
  {
    var t, i, c := s.table.nextToken, s.kernel.open[n], s.clients.known[h];
    State(
      s.kernel.(held := s.kernel.held - {n}),
      Table(s.table.fds[t := n], t + 1, s.table.origin[t := i], s.table.tokenOf[i := t]),
      s.clients.(known := s.clients.known[h := c.(pending := c.pending + {t})], home := s.clients.home[t := h]))
  }

  predicate CanClaim(s: State, h: Handle, t: Token) {
    && h in s.clients.known && s.clients.known[h].registered
    && t in s.table.fds && t in s.clients.known[h].pending
  }

  /** bluez_media_claim_fd: the token stays in the table, owned by the caller. */
  function Claim(s: State, h: Handle, t: Token): State {
    if !CanClaim(s, h, t) then s
    else s.(clients := s.clients.(known := s.clients.known[h := Client(true, s.clients.known[h].pending - {t})],
                                  claimed := s.clients.claimed + {t}))
  }

  /** bluez_media_release_fd_token, which forgets the token in registered clients only. */
  function ReleaseToken(s: State, t: Token): State {
    if t in s.table.fds then Drop(s, t).(clients := Forget(s.clients, {t})) else s
  }

  function TokensOf(tb: Table, n: Fd): set<Token> {
    set t | t in tb.fds && tb.fds[t] == n
  }

  /** bluez_media_close_fd. */
  function CloseFd(s: State, n: Fd): State {
    var tokens := TokensOf(s.table, n);
    State(Close(s.kernel, n), s.table.(fds := s.table.fds - tokens), Forget(s.clients, tokens))
  }

  function Register(c: Clients): Clients {
    c.(known := c.known[c.nextHandle := Client(true, {})], nextHandle := c.nextHandle + 1)
  }

  /** retire_context. */
  function Retire(c: Clients, h: Handle): Clients {
    if h in c.known then c.(known := c.known[h := c.known[h].(registered := false)]) else c
  }

  /** release_pending_fds as a client is destroyed, retired before or cleared with the registry. */
  function Destroy(s: State, h: Handle, order: seq<Token>): State {
    DropAll(s, order).(clients := s.clients.(known := s.clients.known - {h}))
  }

  datatype Action =
    | Opens(n: Fd) | Closes(n: Fd)
    | Acquires(n: Fd) | Abandons(n: Fd) | Retains(h: Handle, n: Fd)
    | Claims(h: Handle, t: Token) | ReleasesToken(t: Token) | ClosesFd(n: Fd)
    | Registers | Retires(h: Handle) | Destroys(h: Handle, order: seq<Token>)
    | ClosesAll(order: seq<Token>)

  /** Nobody else closes a tabled or held descriptor. A client lives while an operation runs on it,
      and the registry closes what is left after its clients are gone. */
  ghost predicate Enabled(s: State, a: Action) {
    match a
    case Opens(n) => n !in s.kernel.open
    case Closes(n) => n !in s.kernel.held && n !in s.table.fds.Values
    case Acquires(n) => n !in s.kernel.open
    case Abandons(n) => n in s.kernel.held
    case Retains(h, n) => n in s.kernel.held && n in s.kernel.open && h in s.clients.known
    case ClosesFd(n) => n !in s.kernel.held
    case Destroys(h, order) => h in s.clients.known && Enumerates(order, s.clients.known[h].pending)
    case ClosesAll(order) => s.clients.known == map[] && Enumerates(order, s.table.fds.Keys)
    case _ => true
  }

  function Next(s: State, a: Action): State
    requires a.Retains? ==> a.n in s.kernel.open && a.h in s.clients.known
  {
    match a
    case Opens(n) => s.(kernel := Open(s.kernel, n))
    case Closes(n) => s.(kernel := s.kernel.(open := s.kernel.open - {n}))
    case Acquires(n) => s.(kernel := Open(s.kernel, n).(held := s.kernel.held + {n}))
    case Abandons(n) => s.(kernel := Close(s.kernel, n).(held := s.kernel.held - {n}))
    case Retains(h, n) => Retain(s, h, n)
    case Claims(h, t) => Claim(s, h, t)
    case ReleasesToken(t) => ReleaseToken(s, t)
    case ClosesFd(n) => CloseFd(s, n)
    case Registers => s.(clients := Register(s.clients))
    case Retires(h) => s.(clients := Retire(s.clients, h))
    case Destroys(h, order) => Destroy(s, h, order)
    case ClosesAll(order) => DropAll(s, order)
  }

  // ---------------------------------------------------------------- the invariant

  /** An instance is open at its own number only; one that is open was not closed, and none is
      closed twice. */
  ghost predicate Instances(k: Kernel) {
    && (forall n | n in k.open :: k.open[n] < |k.numbers| && k.numbers[k.open[n]] == n && k.closed[k.open[n]] == 0)
    && (forall i :: k.closed[i] <= if i < |k.numbers| then 1 else 0)
  }

  /** Tokens are handed out once, each for its own instance. */
  ghost predicate Tokens(tb: Table) {
    && 1 <= tb.nextToken && (forall t :: t in tb.origin <==> 1 <= t < tb.nextToken)
    && (forall t | t in tb.origin :: tb.origin[t] in tb.tokenOf && tb.tokenOf[tb.origin[t]] == t)
    && (forall i | i in tb.tokenOf :: tb.tokenOf[i] in tb.origin && tb.origin[tb.tokenOf[i]] == i)
    && tb.fds.Keys <= tb.origin.Keys
  }

  /** Held descriptors are open and retained under no token. */
  ghost predicate Held(k: Kernel, tb: Table) {
    && (forall n | n in k.held :: n in k.open && k.open[n] !in tb.tokenOf)
    && (forall i | i in tb.tokenOf :: i < |k.numbers|)
  }

  /** A tabled token's number is open and still stands for the retained instance; a retained
      instance whose token has left the table was closed. */
  ghost predicate Tabled(k: Kernel, tb: Table)
    requires Tokens(tb)
  {
    && (forall t | t in tb.fds :: tb.fds[t] in k.open && k.open[tb.fds[t]] == tb.origin[t])
    && (forall t | t in tb.origin && t !in tb.fds :: k.closed[tb.origin[t]] == 1)
  }

  /** A token is pending at most at home, and what a registered client has pending is tabled. What
      is tabled is claimed or pending, not both. */
  ghost predicate Pending(c: Clients, fds: set<Token>, nextToken: Token) {
    && (forall h | h in c.known :: h < c.nextHandle)
    && (forall h, t | h in c.known && t in c.known[h].pending ::
          t in c.home && c.home[t] == h && t !in c.claimed && (c.known[h].registered ==> t in fds))
    && (forall t | t in fds && t !in c.claimed ::
          t in c.home && c.home[t] in c.known && t in c.known[c.home[t]].pending)
    && (forall t | t in c.home || t in c.claimed :: t < nextToken)
  }

  ghost predicate Inv(s: State) {
    && Instances(s.kernel) && Tokens(s.table) && Held(s.kernel, s.table) && Tabled(s.kernel, s.table)
    && Pending(s.clients, s.table.fds.Keys, s.table.nextToken)
  }

  ghost predicate Owned(k: Kernel, tb: Table) {
    Instances(k) && Tokens(tb) && Held(k, tb) && Tabled(k, tb)
  }

  // ---------------------------------------------------------------- every step keeps it

  lemma CloseKeeps(k: Kernel, n: Fd)
    requires Instances(k)
    ensures Instances(Close(k, n))
    ensures forall i :: Close(k, n).closed[i] == k.closed[i] + if n in k.open && i == k.open[n] then 1 else 0
  {
  }

  lemma CloseUntabledKeeps(k: Kernel, tb: Table, n: Fd)
    requires Owned(k, tb) && n !in k.held && n !in tb.fds.Values
    ensures Owned(Close(k, n), tb)
  {
    CloseKeeps(k, n);
    assert forall t | t in tb.fds :: tb.fds[t] in tb.fds.Values;
  }

  lemma DropKeeps(s: State, t: Token)
    requires Owned(s.kernel, s.table)
    ensures var s' := Drop(s, t);
      && Owned(s'.kernel, s'.table)
      && s'.clients == s.clients && s'.table == s.table.(fds := s.table.fds - {t})
  {
    if t in s.table.fds {
      CloseKeeps(s.kernel, s.table.fds[t]);
      assert forall u | u in s.table.fds :: s.table.tokenOf[s.table.origin[u]] == u;
      assert s.table.fds[t] !in s.kernel.held;
    } else {
      assert s.table.fds - {t} == s.table.fds;
    }
  }

  lemma {:induction false} DropAllKeeps(s: State, order: seq<Token>)
    requires Owned(s.kernel, s.table)
    ensures var s' := DropAll(s, order);
      && Owned(s'.kernel, s'.table)
      && s'.clients == s.clients && s'.table == s.table.(fds := s'.table.fds)
      && (forall t :: t in s'.table.fds <==> t in s.table.fds && t !in order)
      && (forall t | t in s'.table.fds :: s'.table.fds[t] == s.table.fds[t])
  {
    if order != [] {
      var front, last := order[..|order| - 1], order[|order| - 1];
      assert order == front + [last];
      DropAllKeeps(s, front);
      DropKeeps(DropAll(s, front), last);
    }
  }

  lemma ForgetKeeps(c: Clients, fds: set<Token>, nextToken: Token, t: Token)
    requires Pending(c, fds, nextToken)
    ensures Pending(Forget(c, {t}), fds - {t}, nextToken)
  {
  }

  lemma ReleaseTokenKeeps(s: State, t: Token)
    requires Inv(s)
    ensures Inv(ReleaseToken(s, t))
  {
    DropKeeps(s, t);
    ForgetKeeps(s.clients, s.table.fds.Keys, s.table.nextToken, t);
    assert (s.table.fds - {t}).Keys == s.table.fds.Keys - {t};
  }

  /** No two tokens stand for the same number. */
  ghost predicate Distinct(fds: map<Token, Fd>) {
    forall t, u | t in fds && u in fds && fds[t] == fds[u] :: t == u
  }

  lemma TableIsDistinct(s: State)
    requires Inv(s)
    ensures Distinct(s.table.fds)
  {
    assert forall u | u in s.table.fds :: s.table.tokenOf[s.table.origin[u]] == u;
  }

  /** Closing a tabled number is releasing its token. */
  lemma CloseFdReleases(s: State, n: Fd, t: Token)
    requires Distinct(s.table.fds) && t in s.table.fds && s.table.fds[t] == n
    ensures CloseFd(s, n) == ReleaseToken(s, t)
  {
    assert TokensOf(s.table, n) == {t};
  }

  lemma CloseFdUntabled(s: State, n: Fd)
    requires n !in s.table.fds.Values
    ensures CloseFd(s, n) == s.(kernel := Close(s.kernel, n))
  {
    forall t | t in s.table.fds
      ensures s.table.fds[t] != n
    {
      assert s.table.fds[t] in s.table.fds.Values;
    }
    assert TokensOf(s.table, n) == {};
    assert s.table.fds - {} == s.table.fds;
    var c := s.clients;
    assert forall h | h in c.known :: c.known[h].pending - {} == c.known[h].pending;
    assert Forget(c, {}).known == c.known;
  }

  lemma CloseFdKeeps(s: State, n: Fd)
    requires Inv(s) && n !in s.kernel.held
    ensures Inv(CloseFd(s, n))
  {
    if n in s.table.fds.Values {
      var t :| t in s.table.fds && s.table.fds[t] == n;
      TableIsDistinct(s);
      CloseFdReleases(s, n, t);
      ReleaseTokenKeeps(s, t);
    } else {
      CloseFdUntabled(s, n);
      CloseUntabledKeeps(s.kernel, s.table, n);
    }
  }

  lemma RetainKeepsTable(s: State, h: Handle, n: Fd)
    requires Inv(s) && n in s.kernel.held && h in s.clients.known
    ensures var s' := Retain(s, h, n); Owned(s'.kernel, s'.table)
  {
    assert s.table.nextToken !in s.table.origin;
  }

  lemma RetainKeepsPending(s: State, h: Handle, n: Fd)
    requires Inv(s) && n in s.kernel.held && h in s.clients.known
    ensures var s' := Retain(s, h, n); Pending(s'.clients, s'.table.fds.Keys, s'.table.nextToken)
  {
    assert s.table.nextToken !in s.clients.home && s.table.nextToken !in s.clients.claimed;
  }

  lemma OpenKeeps(k: Kernel, tb: Table, n: Fd)
    requires Owned(k, tb) && n !in k.open
    ensures Owned(Open(k, n), tb) && Owned(Open(k, n).(held := k.held + {n}), tb)
  {
    assert forall t | t in tb.fds :: tb.fds[t] in k.open;
    assert |k.numbers| !in tb.tokenOf;
  }

  lemma AbandonKeeps(k: Kernel, tb: Table, n: Fd)
    requires Owned(k, tb) && n in k.held
    ensures Owned(Close(k, n).(held := k.held - {n}), tb)
  {
    CloseKeeps(k, n);
    assert forall t | t in tb.fds :: tb.origin[t] in tb.tokenOf;
  }

  lemma ForeignCloseKeeps(k: Kernel, tb: Table, n: Fd)
    requires Owned(k, tb) && n !in k.held && n !in tb.fds.Values
    ensures Owned(k.(open := k.open - {n}), tb)
  {
    assert forall t | t in tb.fds :: tb.fds[t] in tb.fds.Values;
  }

  lemma RegisterKeeps(c: Clients, fds: set<Token>, nextToken: Token)
    requires Pending(c, fds, nextToken)
    ensures Pending(Register(c), fds, nextToken)
  {
  }

  lemma RetireKeeps(c: Clients, fds: set<Token>, nextToken: Token, h: Handle)
    requires Pending(c, fds, nextToken)
    ensures Pending(Retire(c, h), fds, nextToken)
  {
  }

  lemma ClaimKeeps(s: State, h: Handle, t: Token)
    requires Pending(s.clients, s.table.fds.Keys, s.table.nextToken)
    ensures var s' := Claim(s, h, t); Pending(s'.clients, s'.table.fds.Keys, s'.table.nextToken)
    ensures Claim(s, h, t) == s.(clients := Claim(s, h, t).clients)
  {
  }

  lemma DestroyKeepsPending(c: Clients, fds: set<Token>, nextToken: Token, h: Handle)
    requires Pending(c, fds, nextToken) && h in c.known
    ensures Pending(c.(known := c.known - {h}), fds - c.known[h].pending, nextToken)
  {
    forall k, t | k in c.known && t in c.known[k].pending
      ensures k == h || t !in c.known[h].pending
    {
      assert c.home[t] == k;
    }
  }

  lemma DestroyKeeps(s: State, h: Handle, order: seq<Token>)
    requires Inv(s) && h in s.clients.known && Enumerates(order, s.clients.known[h].pending)
    ensures Inv(Destroy(s, h, order))
  {
    DropAllKeeps(s, order);
    DestroyKeepsPending(s.clients, s.table.fds.Keys, s.table.nextToken, h);
    assert DropAll(s, order).table.fds.Keys == s.table.fds.Keys - s.clients.known[h].pending;
  }

  lemma CloseAllKeeps(s: State, order: seq<Token>)
    requires Inv(s) && s.clients.known == map[]
    ensures Inv(DropAll(s, order))
  {
    DropAllKeeps(s, order);
  }

  lemma StepKeeps(s: State, a: Action)
    requires Inv(s) && Enabled(s, a)
    ensures Inv(Next(s, a))
  {
    match a
    case Opens(n) => OpenKeeps(s.kernel, s.table, n);
    case Closes(n) => ForeignCloseKeeps(s.kernel, s.table, n);
    case Acquires(n) => OpenKeeps(s.kernel, s.table, n);
    case Abandons(n) => AbandonKeeps(s.kernel, s.table, n);
    case Retains(h, n) => RetainKeepsTable(s, h, n); RetainKeepsPending(s, h, n);
    case Claims(h, t) => ClaimKeeps(s, h, t);
    case ReleasesToken(t) => ReleaseTokenKeeps(s, t);
    case ClosesFd(n) => CloseFdKeeps(s, n);
    case Registers => RegisterKeeps(s.clients, s.table.fds.Keys, s.table.nextToken);
    case Retires(h) => RetireKeeps(s.clients, s.table.fds.Keys, s.table.nextToken, h);
    case Destroys(h, order) => DestroyKeeps(s, h, order);
    case ClosesAll(order) => CloseAllKeeps(s, order);
  }

  // ---------------------------------------------------------------- runs

  ghost predicate Runs(s: State, actions: seq<Action>)
    decreases |actions|
  {
    actions == [] || (Enabled(s, actions[0]) && Runs(Next(s, actions[0]), actions[1..]))
  }

  ghost function After(s: State, actions: seq<Action>): State
    requires Runs(s, actions)
    decreases |actions|
  {
    if actions == [] then s else After(Next(s, actions[0]), actions[1..])
  }

  lemma {:induction false} RunSnoc(s: State, actions: seq<Action>, a: Action)
    requires Runs(s, actions) && Enabled(After(s, actions), a)
    ensures Runs(s, actions + [a]) && After(s, actions + [a]) == Next(After(s, actions), a)
    decreases |actions|
  {
    var more := actions + [a];
    if actions == [] {
      assert more[1..] == [] && more[0] == a;
      assert After(Next(s, a), []) == Next(s, a) && Runs(Next(s, a), []);
    } else {
      RunSnoc(Next(s, actions[0]), actions[1..], a);
      assert more[1..] == actions[1..] + [a] && more[0] == actions[0];
    }
  }

  lemma {:induction false} RunKeeps(s: State, actions: seq<Action>)
    requires Inv(s) && Runs(s, actions)
    ensures Inv(After(s, actions))
    decreases |actions|
  {
    if actions != [] {
      StepKeeps(s, actions[0]);
      RunKeeps(Next(s, actions[0]), actions[1..]);
    }
  }

  ghost predicate IsPending(s: State, t: Token) {
    exists h :: h in s.clients.known && t in s.clients.known[h].pending
  }

  /** Conservation, in every reachable state: a retained descriptor is in the table, open under its
      number and never closed, and then either claimed or pending on one client; or it is out of the
      table and the library has closed it exactly once. No two tokens share a number. */
  lemma DescriptorsConserved(actions: seq<Action>, t: Token)
    requires Runs(INITIAL, actions) && 1 <= t < After(INITIAL, actions).table.nextToken
    ensures var s := After(INITIAL, actions);
      && t in s.table.origin
      && (t in s.table.fds ==>
            && s.table.fds[t] in s.kernel.open && s.kernel.open[s.table.fds[t]] == s.table.origin[t]
            && s.kernel.closed[s.table.origin[t]] == 0
            && (t in s.clients.claimed <==> !IsPending(s, t))
            && Distinct(s.table.fds))
      && (t !in s.table.fds ==> s.kernel.closed[s.table.origin[t]] == 1)
      && (forall h, k | h in s.clients.known && k in s.clients.known
            && t in s.clients.known[h].pending && t in s.clients.known[k].pending :: h == k)
  {
    assert Inv(INITIAL);
    RunKeeps(INITIAL, actions);
    var s := After(INITIAL, actions);
    if t in s.table.fds {
      TableIsDistinct(s);
      if t !in s.clients.claimed { assert t in s.clients.known[s.clients.home[t]].pending; }
    }
  }

  /** No instance, retained or not, is ever closed twice by the library. */
  lemma NothingClosedTwice(actions: seq<Action>, i: Instance)
    requires Runs(INITIAL, actions)
    ensures After(INITIAL, actions).kernel.closed[i] <= 1
  {
    assert Inv(INITIAL);
    RunKeeps(INITIAL, actions);
  }

  /** Once the clients are gone and the registry has closed the rest, nothing retained is open. */
  lemma ShutdownClosesAll(actions: seq<Action>, order: seq<Token>)
    requires Runs(INITIAL, actions) && Enabled(After(INITIAL, actions), ClosesAll(order))
    ensures var s := Next(After(INITIAL, actions), ClosesAll(order));
      && s.table.fds == map[]
      && forall t | t in s.table.origin :: s.kernel.closed[s.table.origin[t]] == 1
  {
    assert Inv(INITIAL);
    RunKeeps(INITIAL, actions);
    DropAllKeeps(After(INITIAL, actions), order);
  }

  // ---------------------------------------------------------------- finalizers

  lemma StepConsumes(s: State, a: Action, t: Token)
    requires Inv(s) && Enabled(s, a) && t in s.table.origin && t !in s.table.fds
    ensures t in Next(s, a).table.origin && t !in Next(s, a).table.fds
  {
    match a
    case Destroys(h, order) => DropAllKeeps(s, order);
    case ClosesAll(order) => DropAllKeeps(s, order);
    case _ =>
  }

  /** A late finalizer is harmless: once a token has left the table, releasing it changes nothing
      after any further run, whatever its old number stands for by then. */
  lemma {:induction false} LateFinalizer(s: State, actions: seq<Action>, t: Token)
    requires Inv(s) && Runs(s, actions) && t in s.table.origin && t !in s.table.fds
    ensures ReleaseToken(After(s, actions), t) == After(s, actions)
    ensures t !in After(s, actions).table.fds
    decreases |actions|
  {
    if actions != [] {
      StepKeeps(s, actions[0]);
      StepConsumes(s, actions[0], t);
      LateFinalizer(Next(s, actions[0]), actions[1..], t);
    }
  }

  /** Either way of giving a descriptor back consumes its token and closes its instance alone. */
  lemma GivingBack(s: State, t: Token)
    requires Inv(s) && t in s.table.fds
    ensures var n := s.table.fds[t];
      && CloseFd(s, n) == ReleaseToken(s, t)
      && t !in CloseFd(s, n).table.fds
      && CloseFd(s, n).kernel.open == s.kernel.open - {n}
      && CloseFd(s, n).kernel.closed == s.kernel.closed + multiset{s.table.origin[t]}
      && CloseFd(s, n).table.fds == s.table.fds - {t}
  {
    TableIsDistinct(s);
    CloseFdReleases(s, s.table.fds[t], t);
  }

  /** The rule that nobody else closes a tabled descriptor is needed: if it is broken and the number
      is reused, the finalizer closes the new instance. */
  lemma OutsideCloseMisdirects(s: State, t: Token)
    requires Inv(s) && t in s.table.fds
    ensures var n := s.table.fds[t];
      var s' := s.(kernel := Open(s.kernel.(open := s.kernel.open - {n}), n));
      && s'.kernel.open[n] != s.table.origin[t]
      && ReleaseToken(s', t).kernel.closed[s'.kernel.open[n]] == 1
      && ReleaseToken(s', t).kernel.closed[s.table.origin[t]] == 0
  {
  }

  // ---------------------------------------------------------------- the receiving side

  /** _decodeAcquire: claim the token if the payload decodes, and otherwise release it. */
  function DecodeAcquire(s: State, h: Handle, t: Token, decodes: bool): (State, bool) {
    if decodes && CanClaim(s, h, t) then (Claim(s, h, t), true) else (ReleaseToken(s, t), false)
  }

  /** A result is returned only with a descriptor that is open and owned by the caller; a failure
      leaves the token out of the table, its descriptor closed once. */
  lemma AcquireTransfersOrCloses(s: State, h: Handle, t: Token, decodes: bool)
    requires Inv(s) && t in s.table.origin
    ensures var (s', ok) := DecodeAcquire(s, h, t, decodes);
      && Inv(s')
      && (ok <==>
            && decodes && h in s.clients.known && s.clients.known[h].registered
            && t in s.table.fds && t in s.clients.known[h].pending)
      && (ok ==> && t in s'.table.fds && t in s'.clients.claimed && !IsPending(s', t)
                 && s'.table.fds[t] in s'.kernel.open && s'.kernel.open[s'.table.fds[t]] == s.table.origin[t])
      && (!ok ==> t !in s'.table.fds && s'.kernel.closed[s.table.origin[t]] == 1)
  {
    ClaimKeeps(s, h, t);
    ReleaseTokenKeeps(s, t);
  }
}
