/**
 * The transport context of tensorpipe/transport/ibv/context.cc: it owns the
 * reactor, names the connections and listeners it opens, looks addresses up
 * for the InfiniBand transport, and closes and joins at most once.
 *
 * The epoll loop and the closing emitter are outside the model; closing or
 * joining them is counted. The operating system's results (the interface
 * list, the hostname, name resolution, socket creation and binding) are
 * inputs.
 */
module IbvContext {
  import opened Common
  import opened Decimal
  import opened Operations
  import opened TransportContext
  import IbvReactor

  /** `"ibv:*"`: any two processes with an InfiniBand device may connect. */
  function GenerateDomainDescriptor(): (d: string)
    ensures d == DomainDescriptor("ibv")
  {
    "ibv:" + "*"
  }

  /** The identifier of the `n`th connection a context opens: `id + ".c" + n`. */
  function ConnectionId(id: string, n: nat): string
  {
    id + ".c" + NatToString(n)
  }

  /** The identifier of the `n`th listener a context opens: `id + ".l" + n`. */
  function ListenerId(id: string, n: nat): string
  {
    id + ".l" + NatToString(n)
  }

  /** Connections, and listeners, of one context get distinct identifiers, and never the same as each other. */
  lemma IdsDistinct(id: string, a: nat, b: nat)
    ensures a != b ==> ConnectionId(id, a) != ConnectionId(id, b) && ListenerId(id, a) != ListenerId(id, b)
    ensures ConnectionId(id, a) != ListenerId(id, b)
  {
    assert ConnectionId(id, a) == (id + ".c") + NatToString(a) && ConnectionId(id, b) == (id + ".c") + NatToString(b);
    assert ListenerId(id, a) == (id + ".l") + NatToString(a) && ListenerId(id, b) == (id + ".l") + NatToString(b);
    NumberedInjective(id + ".c", a, b);
    NumberedInjective(id + ".l", a, b);
    assert ConnectionId(id, a)[|id| + 1] == 'c' && ListenerId(id, b)[|id| + 1] == 'l';
  }

  /** A failed `getifaddrs` becomes SystemError("getifaddrs", errno). */
  function IfaddrsError(rv: int, errno: int): (e: Error)
    ensures rv < 0 <==> e != NoError
  {
    if rv < 0 then SystemError("getifaddrs", errno) else NoError
  }

  /**
   * What stops the hostname lookup before any candidate is tried: a failed
   * `gethostname`, then a nonzero `getaddrinfo` result.
   */
  function ResolveError(hostnameRv: int, errno: int, gaiRv: int): (e: Error)
    ensures hostnameRv < 0 ==> e == SystemError("gethostname", errno)
    ensures hostnameRv >= 0 ==> (e == NoError <==> gaiRv == 0)
  {
    if hostnameRv < 0 then SystemError("gethostname", errno)
    else if gaiRv != 0 then GetaddrinfoError(gaiRv)
    else NoError
  }

  /** One resolved address of the hostname, with what creating a socket for its family and binding it gave. */
  datatype Attempt = Attempt(addr: string, createError: Error, bindError: Error)

  /**
   * An attempt's outcome: it succeeds exactly when both steps do, and a
   * socket that could not be created is never bound, so that error wins.
   */
  function BindOutcome(a: Attempt): (e: Error)
    ensures e == NoError <==> a.createError == NoError && a.bindError == NoError
    ensures a.createError != NoError ==> e == a.createError
  {
    if a.createError != NoError then a.createError else a.bindError
  }

  class Context {
    const reactor: IbvReactor.Reactor
    const domainDescriptor: string
    var id: string
    var closed: bool
    var joined: bool
    var listenerCounter: nat
    var connectionCounter: nat
    /** How many times the closing emitter and the epoll loop were closed, and the loop joined. */
    var emitterCloses: nat
    var loopCloses: nat
    var loopJoins: nat

    predicate Valid()
      reads this, reactor, reactor.loop
    {
      && reactor.Valid()
      && emitterCloses == loopCloses == (if closed then 1 else 0)
      && loopJoins == (if joined then 1 else 0)
      && (closed <==> reactor.closed) && (joined <==> reactor.joined)
      && (joined ==> closed)
    }

    constructor(reactor: IbvReactor.Reactor)
      requires reactor.Valid() && !reactor.closed && !reactor.joined
      ensures Valid() && this.reactor == reactor && !closed && !joined
      ensures domainDescriptor == "ibv:*" && id == "N/A"
      ensures listenerCounter == 0 && connectionCounter == 0
    {
      this.reactor := reactor;
      domainDescriptor := GenerateDomainDescriptor();
      id := "N/A";
      closed := false;
      joined := false;
      listenerCounter := 0;
      connectionCounter := 0;
      emitterCloses := 0;
      loopCloses := 0;
      loopJoins := 0;
    }

    /** The context can be used exactly when its reactor can. */
    predicate IsViable()
      reads this, reactor
      ensures IsViable() <==> reactor.viable
    {
      reactor.viable
    }

    /** The first close closes the emitter, the loop and the reactor; later ones do nothing. */
    method Close()
      requires Valid()
      modifies this`closed, this`emitterCloses, this`loopCloses, reactor`closed, reactor.loop
      ensures Valid() && closed && reactor.closed
      ensures emitterCloses == 1 && loopCloses == 1
      ensures old(closed) ==> unchanged(reactor.loop)
    {
      if !closed {
        closed := true;
        emitterCloses := emitterCloses + 1;
        loopCloses := loopCloses + 1;
        reactor.Close();
      }
    }

    /** Joining closes first, then, the first time only, joins the loop and the reactor. */
    method Join()
      requires Valid()
      modifies this`closed, this`emitterCloses, this`loopCloses, this`joined, this`loopJoins
      modifies reactor`closed, reactor`joined, reactor`threadJoins, reactor.loop
      ensures Valid() && closed && joined && reactor.joined
      ensures loopJoins == 1
      ensures reactor.threadJoins == old(reactor.threadJoins) + (if !old(joined) && reactor.threadStarted then 1 else 0)
      ensures reactor.threadJoins == (if reactor.threadStarted then 1 else 0)
    {
      Close();
      if !joined {
        joined := true;
        loopJoins := loopJoins + 1;
        reactor.Join();
      }
    }

    /** Names the connection it opens after the counter, which advances. */
    method Connect() returns (connectionId: string)
      modifies this`connectionCounter
      ensures connectionId == ConnectionId(id, old(connectionCounter))
      ensures connectionCounter == old(connectionCounter) + 1
    {
      connectionId := id + ".c" + NatToString(connectionCounter);
      connectionCounter := connectionCounter + 1;
    }

    /** Names the listener it opens after the counter, which advances. */
    method Listen() returns (listenerId: string)
      modifies this`listenerCounter
      ensures listenerId == ListenerId(id, old(listenerCounter))
      ensures listenerCounter == old(listenerCounter) + 1
    {
      listenerId := id + ".l" + NatToString(listenerCounter);
      listenerCounter := listenerCounter + 1;
    }

    /** Renames the context. */
    method SetId(newId: string)
      modifies this`id
      ensures id == newId
    {
      id := newId;
    }
  }

  /**
   * The address of the first entry of the interface list with an address,
   * the name `iface` and an IPv4 or IPv6 family; the `getifaddrs` error, or
   * NoAddrFoundError, otherwise.
   */
  method LookupAddrForIface(rv: int, errno: int, ifas: seq<Interface>, iface: string) returns (r: Lookup)
    ensures rv < 0 ==> r == Failed(SystemError("getifaddrs", errno))
    ensures rv >= 0 && r.Found? ==>
      exists i :: 0 <= i < |ifas| && Usable(ifas[i], iface) && r.addr == ifas[i].addr.value.text
                  && forall j :: 0 <= j < i ==> !Usable(ifas[j], iface)
    ensures rv >= 0 && r.Failed? ==>
      r.error == NoAddrFoundError && forall i :: 0 <= i < |ifas| ==> !Usable(ifas[i], iface)
  {
    r := TransportContext.LookupAddrForIface(IfaddrsError(rv, errno), ifas, iface);
  }

  /**
   * The first address of the hostname for which a socket can be created and
   * bound; otherwise the first such error, or NoAddrFoundError when the
   * hostname resolved to nothing.
   */
  method LookupAddrForHostname(hostnameRv: int, errno: int, gaiRv: int, attempts: seq<Attempt>) returns (r: Lookup)
    ensures hostnameRv < 0 ==> r == Failed(SystemError("gethostname", errno))
    ensures hostnameRv >= 0 && gaiRv != 0 ==> r == Failed(GetaddrinfoError(gaiRv))
    ensures hostnameRv >= 0 && gaiRv == 0 && r.Found? ==>
      exists i :: 0 <= i < |attempts| && BindOutcome(attempts[i]) == NoError && r.addr == attempts[i].addr
                  && forall j :: 0 <= j < i ==> BindOutcome(attempts[j]) != NoError
    ensures hostnameRv >= 0 && gaiRv == 0 && r.Failed? ==>
      && (forall i :: 0 <= i < |attempts| ==> BindOutcome(attempts[i]) != NoError)
      && r.error == (if attempts == [] then NoAddrFoundError else BindOutcome(attempts[0]))
  {
    var candidates := seq(|attempts|, i requires 0 <= i < |attempts| => Candidate(attempts[i].addr, BindOutcome(attempts[i])));
    r := FirstBindable(ResolveError(hostnameRv, errno, gaiRv), candidates);
    assert forall i :: 0 <= i < |attempts| ==> candidates[i].bindError == BindOutcome(attempts[i]);
  }
}
