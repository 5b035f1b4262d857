/** How long an acquired descriptor can be claimed: from the moment it is retained for a registered
    client until it is claimed or given back, or its client is retired or destroyed; and never again. */
module FdClaims {
  import opened FdOwnership

  /** A claim made now makes the token the caller's. */
  predicate Succeeds(s: State, h: Handle, t: Token) {
    t !in s.clients.claimed && t in Claim(s, h, t).clients.claimed
  }

  lemma ClaimSucceeds(s: State, h: Handle, t: Token)
    requires Inv(s)
    ensures Succeeds(s, h, t) <==>
      h in s.clients.known && s.clients.known[h].registered && t in s.table.fds && t in s.clients.known[h].pending
  {
  }

  /** What ends it for the descriptor `n` retained under `t` for `h`. */
  predicate Spends(a: Action, h: Handle, n: Fd, t: Token) {
    match a
    case Claims(k, u) => k == h && u == t
    case ReleasesToken(u) => u == t
    case ClosesFd(m) => m == n
    case Retires(k) => k == h
    case Destroys(k, _) => k == h
    case ClosesAll(_) => true
    case _ => false
  }

  /** `t` was retained for `h`, and stands for `n` while it is tabled. */
  ghost predicate RetainedFor(s: State, h: Handle, n: Fd, t: Token) {
    && t in s.table.origin && t in s.clients.home && s.clients.home[t] == h && h < s.clients.nextHandle
    && (t in s.table.fds ==> s.table.fds[t] == n)
  }

  lemma RetainedStays(s: State, a: Action, h: Handle, n: Fd, t: Token)
    requires Inv(s) && Enabled(s, a) && RetainedFor(s, h, n, t)
    ensures RetainedFor(Next(s, a), h, n, t)
  {
    match a
    case Destroys(_, order) => DropAllKeeps(s, order);
    case ClosesAll(order) => DropAllKeeps(s, order);
    case _ =>
  }

  /** Each step leaves a descriptor claimable unless it spends it, and none makes it claimable again. */
  lemma StepClaimable(s: State, a: Action, h: Handle, n: Fd, t: Token)
    requires Inv(s) && Enabled(s, a) && RetainedFor(s, h, n, t)
    ensures CanClaim(Next(s, a), h, t) <==> CanClaim(s, h, t) && !Spends(a, h, n, t)
  {
    match a
    case Destroys(k, order) => DestroyingClaimable(s, k, order, h, n, t);
    case ClosesAll(order) => DropAllKeeps(s, order);
    case Retains(k, m) => RetainingClaimable(s, k, m, h, n, t);
    case Claims(k, u) => ClaimingClaimable(s, k, u, h, n, t);
    case ReleasesToken(u) => ReleasingClaimable(s, u, h, n, t);
    case ClosesFd(m) => ClosingClaimable(s, m, h, n, t);
    case _ =>
  }

  lemma DestroyingClaimable(s: State, k: Handle, order: seq<Token>, h: Handle, n: Fd, t: Token)
    requires Inv(s) && Enabled(s, Destroys(k, order)) && RetainedFor(s, h, n, t)
    ensures CanClaim(Destroy(s, k, order), h, t) <==> CanClaim(s, h, t) && k != h
  {
    DropAllKeeps(s, order);
    assert k != h && CanClaim(s, h, t) ==> t !in s.clients.known[k].pending;
    assert t in order <==> t in s.clients.known[k].pending;
  }

  lemma RetainingClaimable(s: State, k: Handle, m: Fd, h: Handle, n: Fd, t: Token)
    requires Inv(s) && Enabled(s, Retains(k, m)) && RetainedFor(s, h, n, t)
    ensures CanClaim(Retain(s, k, m), h, t) <==> CanClaim(s, h, t)
  {
  }

  lemma ClaimingClaimable(s: State, k: Handle, u: Token, h: Handle, n: Fd, t: Token)
    requires Inv(s) && RetainedFor(s, h, n, t)
    ensures CanClaim(Claim(s, k, u), h, t) <==> CanClaim(s, h, t) && !(k == h && u == t)
  {
  }

  lemma ReleasingClaimable(s: State, u: Token, h: Handle, n: Fd, t: Token)
    requires Inv(s) && RetainedFor(s, h, n, t)
    ensures CanClaim(ReleaseToken(s, u), h, t) <==> CanClaim(s, h, t) && u != t
  {
  }

  lemma ClosingClaimable(s: State, m: Fd, h: Handle, n: Fd, t: Token)
    requires Inv(s) && RetainedFor(s, h, n, t)
    ensures CanClaim(CloseFd(s, m), h, t) <==> CanClaim(s, h, t) && m != n
  {
  }

  lemma {:induction false} RunClaimable(s: State, actions: seq<Action>, h: Handle, n: Fd, t: Token)
    requires Inv(s) && Runs(s, actions) && RetainedFor(s, h, n, t)
    ensures Inv(After(s, actions)) && RetainedFor(After(s, actions), h, n, t)
    ensures CanClaim(After(s, actions), h, t) <==> CanClaim(s, h, t) && forall a | a in actions :: !Spends(a, h, n, t)
    decreases |actions|
  {
    if actions != [] {
      StepKeeps(s, actions[0]);
      RetainedStays(s, actions[0], h, n, t);
      StepClaimable(s, actions[0], h, n, t);
      RunClaimable(Next(s, actions[0]), actions[1..], h, n, t);
      assert forall a :: a in actions <==> a == actions[0] || a in actions[1..];
    }
  }

  /** In every run on from its retention, a descriptor can be claimed, and through its own client only,
      if and only if that client was registered then and nothing has spent it since. */
  lemma ClaimableUntilSpent(s: State, h: Handle, n: Fd, actions: seq<Action>, k: Handle)
    requires Inv(s) && Enabled(s, Retains(h, n)) && Runs(Next(s, Retains(h, n)), actions)
    ensures var t, s' := s.table.nextToken, After(Next(s, Retains(h, n)), actions);
      Succeeds(s', k, t) <==>
        k == h && s.clients.known[h].registered && forall a | a in actions :: !Spends(a, h, n, t)
  {
    var s1, t := Next(s, Retains(h, n)), s.table.nextToken;
    StepKeeps(s, Retains(h, n));
    RunClaimable(s1, actions, h, n, t);
    ClaimSucceeds(After(s1, actions), k, t);
    ClaimSucceeds(After(s1, actions), h, t);
  }

  /** What a retired client has pending is nobody's to claim or to forget: only its destruction, or an
      operation still running on it, changes the set. */
  lemma RetiredKeepPending(s: State, a: Action, h: Handle)
    requires Enabled(s, a) && h in s.clients.known && !s.clients.known[h].registered && h < s.clients.nextHandle
    requires !(a.Destroys? && a.h == h) && !(a.Retains? && a.h == h)
    ensures h in Next(s, a).clients.known && Next(s, a).clients.known[h] == s.clients.known[h]
  {
    match a
    case Destroys(_, order) => DropAllClients(s, order);
    case ClosesAll(order) => DropAllClients(s, order);
    case _ =>
  }

  lemma {:induction false} DropAllClients(s: State, order: seq<Token>)
    ensures DropAll(s, order).clients == s.clients
  {
    if order != [] { DropAllClients(s, order[..|order| - 1]); }
  }
}
