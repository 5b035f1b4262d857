/** The descriptor registry of native/src/bluez_media_client.cpp as the source keeps it: shared
    client objects with their pending sets, a token table and counters, changed in place under one
    mutex. close(2) acts on the kernel's descriptors; post_bytes may fail. */
module FdRegistries {
  import opened Orders
  import opened FdOwnership

  lemma DropAllSnoc(s: State, order: seq<Token>, t: Token)
    ensures DropAll(s, order + [t]) == Drop(DropAll(s, order), t)
  {
    assert (order + [t])[..|order|] == order;
  }

  /** The run `trace` goes from one state to the other and only destroys clients. */
  ghost predicate Destroying(start: State, trace: seq<Action>, end: State) {
    Runs(start, trace) && After(start, trace) == end && forall a | a in trace :: a.Destroys?
  }

  class ClientContext {
    var pendingFds: set<Token>

    constructor ()
      ensures pendingFds == {}
    {
      pendingFds := {};
    }
  }

  class FdRegistry {
    var clients: map<Handle, ClientContext>
    var nextHandle: Handle
    var fds: map<Token, Fd>
    var nextFdToken: Token
    var kernel: Kernel
    /** Clients not yet destroyed, registered or retired. */
    ghost var contexts: map<Handle, ClientContext>
    ghost var origin: map<Token, Instance>
    ghost var tokenOf: map<Instance, Token>
    ghost var home: map<Token, Handle>
    ghost var claimed: set<Token>

    ghost predicate Valid()
      reads this`clients, this`contexts, this`nextHandle
    {
      && (forall h | h in clients :: h in contexts && contexts[h] == clients[h])
      && (forall h | h in contexts :: h < nextHandle)
      && (forall h, k | h in contexts && k in contexts && h != k :: contexts[h] != contexts[k])
    }

    ghost function Abs(): State
      reads this, contexts.Values
    {
      State(kernel, Table(fds, nextFdToken, origin, tokenOf), Clients(Known(), nextHandle, home, claimed))
    }

    ghost function Known(): map<Handle, Client>
      reads this`clients, this`contexts, contexts.Values
    {
      map h | h in contexts :: Client(h in clients, contexts[h].pendingFds)
    }

    constructor ()
      ensures Valid() && Abs() == INITIAL
    {
      clients, nextHandle, fds, nextFdToken := map[], 1, map[], 1;
      kernel := INITIAL.kernel;
      contexts, origin, tokenOf, home, claimed := map[], map[], map[], map[], {};
    }

    /** close(2). */
    method CloseNumber(n: Fd) returns (ok: bool)
      modifies this`kernel
      ensures kernel == Close(old(kernel), n) && ok == (n in old(kernel).open)
    {
      ok := n in kernel.open;
      kernel := Close(kernel, n);
    }

    // -------------------------------------------------------------- clients

    method RegisterContext(context: ClientContext) returns (h: Handle)
      requires Valid() && context.pendingFds == {} && forall k | k in contexts :: contexts[k] != context
      modifies this
      ensures Valid() && h == old(nextHandle) && contexts == old(contexts)[h := context]
      ensures Abs() == old(Abs()).(clients := Register(old(Abs()).clients))
    {
      h := nextHandle;
      nextHandle := nextHandle + 1;
      clients := clients[h := context];
      contexts := contexts[h := context];
      assert Known() == old(Known())[h := Client(true, {})];
    }

    /** The context is handed to the reaper, which destroys it later. */
    method RetireContext(h: Handle) returns (context: ClientContext?)
      requires Valid()
      modifies this
      ensures Valid() && contexts == old(contexts)
      ensures context == (if h in old(clients) then old(clients)[h] else null)
      ensures Abs() == old(Abs()).(clients := Retire(old(Abs()).clients, h))
    {
      if h !in clients {
        assert h in contexts ==> Known() == Known()[h := Known()[h].(registered := false)];
        return null;
      }
      context := clients[h];
      clients := clients - {h};
      assert Known() == old(Known())[h := old(Known())[h].(registered := false)];
    }

    // -------------------------------------------------------------- retaining and claiming

    method AddPending(context: ClientContext, token: Token, ghost h: Handle)
      requires Valid() && h in contexts && contexts[h] == context
      modifies context
      ensures Known() == old(Known())[h := Client(h in clients, old(context.pendingFds) + {token})]
    {
      context.pendingFds := context.pendingFds + {token};
    }

    method RetainFd(context: ClientContext, n: Fd, ghost h: Handle) returns (token: Token)
      requires Valid() && h in contexts && contexts[h] == context
      requires n in kernel.held && n in kernel.open
      modifies this, context
      ensures Valid() && token == old(nextFdToken) && contexts == old(contexts) && clients == old(clients)
      ensures Abs() == Retain(old(Abs()), h, n)
    {
      token := nextFdToken;
      AddPending(context, token, h);
      TableFd(token, n, h);
    }

    method TableFd(token: Token, n: Fd, ghost h: Handle)
      requires Valid() && token == nextFdToken && n in kernel.open
      modifies this`nextFdToken, this`fds, this`kernel, this`origin, this`tokenOf, this`home
      ensures nextFdToken == old(nextFdToken) + 1 && fds == old(fds)[token := n] && home == old(home)[token := h]
      ensures kernel == old(kernel).(held := old(kernel).held - {n})
      ensures origin == old(origin)[token := kernel.open[n]] && tokenOf == old(tokenOf)[kernel.open[n] := token]
    {
      nextFdToken := nextFdToken + 1;
      fds := fds[token := n];
      kernel := kernel.(held := kernel.held - {n});
      var instance := kernel.open[n];
      origin, tokenOf, home := origin[token := instance], tokenOf[instance := token], home[token := h];
    }

    method ClaimFd(h: Handle, token: Token) returns (ok: bool)
      requires Valid()
      modifies this`claimed, contexts.Values
      ensures Valid()
      ensures ok <==> old(h in clients && token in fds && token in clients[h].pendingFds)
      ensures ok ==> token in claimed && token !in contexts[h].pendingFds
      ensures ok == CanClaim(old(Abs()), h, token) && Abs() == Claim(old(Abs()), h, token)
    {
      if h !in clients || token !in fds || token !in clients[h].pendingFds { return false; }
      clients[h].pendingFds := clients[h].pendingFds - {token};
      claimed := claimed + {token};
      assert Known() == old(Known())[h := Client(true, old(clients[h].pendingFds) - {token})];
      ok := true;
    }

    // -------------------------------------------------------------- giving back

    /** Every registered client forgets the token. */
    method EraseFromClients(token: Token)
      requires Valid()
      modifies contexts.Values
      ensures Known() == Forgetting(old(Known()), {token})
    {
      var left := clients.Keys;
      while left != {}
        invariant left <= clients.Keys
        invariant forall h | h in contexts && (h !in clients || h in left) ::
                    contexts[h].pendingFds == old(contexts[h].pendingFds)
        invariant forall h | h in clients && h !in left ::
                    contexts[h].pendingFds == old(contexts[h].pendingFds) - {token}
      {
        var h :| h in left;
        left := left - {h};
        assert clients[h] == contexts[h];
        clients[h].pendingFds := clients[h].pendingFds - {token};
      }
    }

    method ReleaseFdToken(token: Token)
      requires Valid()
      modifies this`fds, this`kernel, contexts.Values
      ensures Valid() && Abs() == ReleaseToken(old(Abs()), token)
    {
      if token !in fds { return; }
      var _ := CloseNumber(fds[token]);
      EraseFromClients(token);
      fds := fds - {token};
    }

    /** The search of close_fd. */
    method FindToken(n: Fd) returns (found: bool, token: Token)
      ensures found ==> token in fds && fds[token] == n
      ensures !found ==> n !in fds.Values
    {
      var left := fds.Keys;
      found, token := false, 0;
      while left != {} && !found
        invariant left <= fds.Keys && forall t | t in fds && t !in left :: fds[t] != n || (found && t == token)
        invariant found ==> token in fds && fds[token] == n
      {
        token :| token in left;
        left := left - {token};
        found := fds[token] == n;
      }
    }

    method CloseFileDescriptor(n: int) returns (ok: bool)
      requires Valid() && Distinct(fds)
      modifies this`fds, this`kernel, contexts.Values
      ensures Valid()
      ensures n < 0 ==> !ok && Abs() == old(Abs())
      ensures n >= 0 ==> ok == (n in old(kernel).open) && Abs() == CloseFd(old(Abs()), n)
    {
      if n < 0 { return false; }
      var found, token := FindToken(n);
      if found {
        CloseFdReleases(Abs(), n, token);
        ok := EraseAndClose(token);
      } else {
        CloseFdUntabled(Abs(), n);
        ok := CloseNumber(n);
      }
    }

    method EraseAndClose(token: Token) returns (ok: bool)
      requires Valid() && token in fds
      modifies this`fds, this`kernel, contexts.Values
      ensures Valid() && Abs() == ReleaseToken(old(Abs()), token)
      ensures ok == (old(fds)[token] in old(kernel).open)
    {
      var n := fds[token];
      EraseFromClients(token);
      fds := fds - {token};
      ok := CloseNumber(n);
    }

    /** release_pending_fds, as a client goes away: a retired one, or one that the registry drops. */
    method ReleasePendingFds(context: ClientContext, h: Handle) returns (ghost order: seq<Token>)
      requires Valid() && h in contexts && contexts[h] == context
      modifies this, context
      ensures Valid() && contexts == old(contexts) - {h} && clients == old(clients) - {h}
      ensures Enumerates(order, old(context.pendingFds)) && Abs() == Destroy(old(Abs()), h, order)
    {
      order := DropEach(context.pendingFds);
      RemoveClient(context, h);
    }

    method RemoveClient(context: ClientContext, h: Handle)
      requires Valid() && h in contexts && contexts[h] == context
      modifies this`clients, this`contexts, context
      ensures Valid() && contexts == old(contexts) - {h} && clients == old(clients) - {h}
      ensures Known() == old(Known()) - {h}
    {
      contexts := contexts - {h};
      clients := clients - {h};
      context.pendingFds := {};
    }

    /** clients.clear() in ~ClientRegistry destroys the clients still registered, one after the other. */
    method ClearClients() returns (ghost trace: seq<Action>)
      requires Valid()
      modifies this, contexts.Values
      ensures Valid() && clients == map[] && contexts == old(contexts - clients.Keys)
      ensures Destroying(old(Abs()), trace, Abs())
    {
      trace := [];
      while clients != map[]
        invariant Valid() && contexts.Values <= old(contexts.Values)
        invariant contexts - clients.Keys == old(contexts - clients.Keys)
        invariant Destroying(old(Abs()), trace, Abs())
        decreases clients.Keys
      {
        trace := ClearClient(old(Abs()), trace);
      }
    }

    method ClearClient(ghost start: State, ghost before: seq<Action>) returns (ghost trace: seq<Action>)
      requires Valid() && clients != map[] && Destroying(start, before, Abs())
      modifies this, contexts.Values
      ensures Valid() && clients.Keys < old(clients.Keys) && contexts.Values <= old(contexts.Values)
      ensures contexts - clients.Keys == old(contexts - clients.Keys)
      ensures Destroying(start, trace, Abs())
    {
      var h :| h in clients;
      ghost var order := ReleasePendingFds(clients[h], h);
      RunSnoc(start, before, Destroys(h, order));
      trace := before + [Destroys(h, order)];
    }

    /** The end of ~ClientRegistry, after its clients are gone. */
    method CloseRemaining() returns (ghost order: seq<Token>)
      requires Valid() && contexts == map[]
      modifies this`fds, this`kernel
      ensures Enumerates(order, old(fds).Keys) && Abs() == Next(old(Abs()), ClosesAll(order))
    {
      order := DropEach(fds.Keys);
    }

    method DropEach(tokens: set<Token>) returns (ghost order: seq<Token>)
      modifies this`fds, this`kernel
      ensures Enumerates(order, tokens) && Abs() == DropAll(old(Abs()), order)
    {
      order := [];
      var left := tokens;
      while left != {}
        invariant left <= tokens && Enumerates(order, tokens - left)
        invariant Abs() == DropAll(old(Abs()), order)
      {
        var token :| token in left;
        left := left - {token};
        DropOne(token);
        DropAllSnoc(old(Abs()), order, token);
        order := order + [token];
      }
    }

    method DropOne(token: Token)
      modifies this`fds, this`kernel
      ensures Abs() == Drop(old(Abs()), token)
    {
      if token in fds {
        var _ := CloseNumber(fds[token]);
        fds := fds - {token};
      }
    }

    // -------------------------------------------------------------- an acquisition, end to end

    /** The acquire branch of dispatch_async: the descriptor is acquired, retained, and posted with
        its token; if posting fails the token is released at once. */
    method PostAcquired(context: ClientContext, n: Fd, posted: bool, ghost h: Handle) returns (token: Token)
      requires Valid() && h in contexts && contexts[h] == context
      requires n in kernel.held && n in kernel.open
      modifies this, contexts.Values
      ensures Valid() && token == old(nextFdToken)
      ensures var s := Retain(old(Abs()), h, n); Abs() == if posted then s else ReleaseToken(s, token)
    {
      token := RetainFd(context, n, h);
      if !posted { ReleaseFdToken(token); }
    }

    /** _decodeAcquire, on the Dart side. */
    method Decode(h: Handle, token: Token, decodes: bool) returns (ok: bool)
      requires Valid()
      modifies this, contexts.Values
      ensures Valid() && (Abs(), ok) == DecodeAcquire(old(Abs()), h, token, decodes)
    {
      if decodes {
        ok := ClaimFd(h, token);
        if ok { return; }
      }
      ReleaseFdToken(token);
      ok := false;
    }
  }

  /** BluezMediaAcquiredTransport: close gives the number back at most once. */
  class AcquiredTransport {
    const fd: Fd
    var closed: bool

    constructor (fd: Fd)
      ensures this.fd == fd && !closed
    {
      this.fd := fd;
      closed := false;
    }

    method Close(registry: FdRegistry)
      requires registry.Valid() && Distinct(registry.fds)
      modifies this, registry`fds, registry`kernel, registry.contexts.Values
      ensures closed && registry.Valid()
      ensures registry.Abs() == if old(closed) then old(registry.Abs()) else CloseFd(old(registry.Abs()), fd)
    {
      if closed { return; }
      closed := true;
      var _ := registry.CloseFileDescriptor(fd);
    }
  }
}
