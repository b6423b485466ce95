/**
 * The context of tensorpipe/core/context_impl.cc: the registry of transports
 * and channels a pipe chooses from (by name, and in order of priority), the
 * listeners and pipes enrolled with the context, the identifiers it hands
 * out, and closing and joining, each at most once.
 *
 * The transport and channel contexts are opaque references; whether one is
 * viable is an input. Listeners and pipes are opaque references too.
 */
module CoreContext {
  import opened Common
  import opened Decimal

  /** A registered transport or channel context, with the identifier it was given. */
  datatype Entry = Entry(ctx: nat, id: string)

  /** An entry of the priority-ordered map: the name it was registered under and its context. */
  datatype Ranked = Ranked(name: string, entry: Entry)

  /**
   * The by-name map and the priority-ordered map of one kind of context.
   * The ordered map is keyed by the negated priority, so its first key is
   * the highest priority.
   */
  datatype Registry = Registry(byName: map<string, Entry>, byPriority: map<int, Ranked>)

  datatype Fault = EmptyName | DuplicateName | DuplicatePriority

  /** What a registration does: a fatal assertion, or the registry afterwards. */
  datatype Registration = Fatal(fault: Fault) | Done(reg: Registry)

  function NamesOf(m: map<int, Ranked>): set<string>
  {
    set k | k in m :: m[k].name
  }

  /**
   * Both maps hold the same contexts: every ordered entry is the by-name
   * entry of its name, each name appears under one priority only, and
   * every name has a priority.
   */
  predicate RegistryValid(r: Registry)
  {
    && (forall k :: k in r.byPriority ==>
          r.byPriority[k].name in r.byName && r.byName[r.byPriority[k].name] == r.byPriority[k].entry)
    && (forall k1, k2 :: k1 in r.byPriority && k2 in r.byPriority && k1 != k2 ==>
          r.byPriority[k1].name != r.byPriority[k2].name)
    && r.byName.Keys == NamesOf(r.byPriority)
  }

  const EmptyRegistry := Registry(map[], map[])

  lemma EmptyRegistryValid()
    ensures RegistryValid(EmptyRegistry)
  {
  }

  /**
   * Registering `ctx` under `name` with `priority`: an empty name, a name
   * already taken or a priority already taken is fatal, checked in that
   * order and before viability; a context that is not viable is skipped;
   * otherwise it is added to both maps.
   */
  function Register(r: Registry, priority: int, name: string, ctx: nat, viable: bool, id: string): (res: Registration)
    ensures res.Fatal? <==> name == [] || name in r.byName || -priority in r.byPriority
    ensures res.Fatal? ==> res.fault == (if name == [] then EmptyName
                                        else if name in r.byName then DuplicateName
                                        else DuplicatePriority)
    ensures res.Done? && !viable ==> res.reg == r
  {
    if name == [] then Fatal(EmptyName)
    else if name in r.byName then Fatal(DuplicateName)
    else if -priority in r.byPriority then Fatal(DuplicatePriority)
    else if !viable then Done(r)
    else Done(Registry(r.byName[name := Entry(ctx, id)], r.byPriority[-priority := Ranked(name, Entry(ctx, id))]))
  }

  /** The context registered under `name`, or EINVAL. */
  function Lookup(r: Registry, name: string): (res: Option<Entry>)
    ensures res.Some? <==> name in r.byName
  {
    if name in r.byName then Some(r.byName[name]) else None
  }

  /** The entry under key `k` comes first in the ordered map: it has the highest priority. */
  predicate IsPreferred(r: Registry, k: int)
  {
    k in r.byPriority && forall k' :: k' in r.byPriority ==> k <= k'
  }

  /** A successful registration keeps both maps in agreement. */
  lemma RegisterKeepsValid(r: Registry, priority: int, name: string, ctx: nat, viable: bool, id: string)
    requires RegistryValid(r)
    requires Register(r, priority, name, ctx, viable, id).Done?
    ensures RegistryValid(Register(r, priority, name, ctx, viable, id).reg)
  {
    if viable {
      var s := Register(r, priority, name, ctx, viable, id).reg;
      assert NamesOf(s.byPriority) == NamesOf(r.byPriority) + {name} by {
        forall n | n in NamesOf(s.byPriority) ensures n in NamesOf(r.byPriority) + {name} {
          var k :| k in s.byPriority && s.byPriority[k].name == n;
        }
        forall n | n in NamesOf(r.byPriority) ensures n in NamesOf(s.byPriority) {
          var k :| k in r.byPriority && r.byPriority[k].name == n;
          assert s.byPriority[k].name == n;
        }
        assert s.byPriority[-priority].name == name;
      }
      assert name !in NamesOf(r.byPriority);
    }
  }

  /**
   * After registering a viable context, looking its name up finds it, and
   * every other name finds what it found before.
   */
  lemma RegisterThenLookup(r: Registry, priority: int, name: string, ctx: nat, id: string, other: string)
    requires Register(r, priority, name, ctx, true, id).Done?
    ensures Lookup(Register(r, priority, name, ctx, true, id).reg, name) == Some(Entry(ctx, id))
    ensures other != name ==> Lookup(Register(r, priority, name, ctx, true, id).reg, other) == Lookup(r, other)
  {
  }

  /**
   * A newly registered context comes first in the ordered map exactly when
   * its priority is above that of every context registered before.
   */
  lemma {:induction false} RegisterPreferred(r: Registry, priority: int, name: string, ctx: nat, id: string)
    requires Register(r, priority, name, ctx, true, id).Done?
    ensures IsPreferred(Register(r, priority, name, ctx, true, id).reg, -priority) <==>
      forall k :: k in r.byPriority ==> priority > -k
  {
    var s := Register(r, priority, name, ctx, true, id).reg;
    assert s.byPriority == r.byPriority[-priority := Ranked(name, Entry(ctx, id))];
    if IsPreferred(s, -priority) {
      forall k | k in r.byPriority ensures priority > -k {
        assert k in s.byPriority;
      }
    }
  }

  /** The identifier `std::to_string(pid) + ":c" + std::to_string(n)` of the `n`th context of a process. */
  function CreateContextId(pid: nat, n: nat): string
  {
    NatToString(pid) + ":c" + NatToString(n)
  }

  /** A context's identifier: its name when it has one, otherwise the created identifier. */
  function ContextId(name: string, pid: nat, n: nat): (id: string)
    ensures name != "" ==> id == name
    ensures name == "" ==> id == CreateContextId(pid, n)
  {
    if name != "" then name else CreateContextId(pid, n)
  }

  /** The identifier of the `n`th listener: `id + "[l" + n + "]"`. */
  function ListenerId(id: string, n: nat): string
  {
    id + "[l" + NatToString(n) + "]"
  }

  /**
   * The identifier of the `n`th pipe: `id + ".p" + n`, or, when the remote
   * context's name is known, `id + "_to_" + remoteName`.
   */
  function PipeId(id: string, n: nat, remoteName: string): string
  {
    if remoteName != "" then id + "_to_" + remoteName else id + ".p" + NatToString(n)
  }

  /** `a + t == b + u` with `|a| == |b|` splits into `a == b` and `t == u`. */
  lemma SplitAt(a: string, t: string, b: string, u: string)
    requires a + t == b + u && |a| == |b|
    ensures a == b && t == u
  {
    assert a == (a + t)[..|a|] && b == (b + u)[..|b|];
    assert t == (a + t)[|a|..] && u == (b + u)[|b|..];
  }

  /** Contexts created with different process ids or counters get different identifiers. */
  lemma CreateContextIdInjective(p1: nat, n1: nat, p2: nat, n2: nat)
    requires CreateContextId(p1, n1) == CreateContextId(p2, n2)
    ensures p1 == p2 && n1 == n2
  {
    var d1, d2 := NatToString(p1), NatToString(p2);
    assert CreateContextId(p1, n1) == d1 + (":c" + NatToString(n1));
    assert CreateContextId(p2, n2) == d2 + (":c" + NatToString(n2));
    DigitPrefixOf(d1, ":c" + NatToString(n1));
    DigitPrefixOf(d2, ":c" + NatToString(n2));
    SplitAt(d1, ":c" + NatToString(n1), d2, ":c" + NatToString(n2));
    NatToStringInjective(p1, p2);
    assert NatToString(n1) == (":c" + NatToString(n1))[2..];
    assert NatToString(n2) == (":c" + NatToString(n2))[2..];
    NatToStringInjective(n1, n2);
  }

  /** Different listeners of one context get different identifiers. */
  lemma ListenerIdInjective(id: string, a: nat, b: nat)
    requires ListenerId(id, a) == ListenerId(id, b)
    ensures a == b
  {
    var sa, sb := NatToString(a), NatToString(b);
    assert ListenerId(id, a) == (id + "[l") + (sa + "]");
    assert ListenerId(id, b) == (id + "[l") + (sb + "]");
    SplitAt(id + "[l", sa + "]", id + "[l", sb + "]");
    assert sa == (sa + "]")[..|sa + "]"| - 1];
    assert sb == (sb + "]")[..|sb + "]"| - 1];
    NatToStringInjective(a, b);
  }

  /** Different unaliased pipes of one context get different identifiers. */
  lemma PipeIdInjective(id: string, a: nat, b: nat)
    requires PipeId(id, a, "") == PipeId(id, b, "")
    ensures a == b
  {
    assert PipeId(id, a, "") == (id + ".p") + NatToString(a);
    assert PipeId(id, b, "") == (id + ".p") + NatToString(b);
    NumberedInjective(id + ".p", a, b);
  }

  /** Visits every element of `s` once, in an unspecified order, as a loop over an unordered map does. */
  method Visit<T>(s: set<T>) returns (order: seq<T>)
    ensures multiset(order) == multiset(s)
  {
    order := [];
    var rest := s;
    while rest != {}
      invariant rest <= s
      invariant multiset(order) + multiset(rest) == multiset(s)
      decreases |rest|
    {
      var x :| x in rest;
      order := order + [x];
      rest := rest - {x};
      assert multiset(rest) + multiset{x} == multiset(rest + {x});
    }
  }

  /**
   * A call closing or joining makes on what the context holds: closing a
   * listener or a pipe from the loop, closing a transport context or the
   * channel context of a device type, joining a transport or a channel
   * context.
   */
  datatype Call =
    | CloseListener(listener: nat)
    | ClosePipe(pipe: nat)
    | CloseTransport(transport: string)
    | CloseChannel(device: Device, channel: string)
    | JoinTransport(transport: string)
    | JoinChannel(device: Device, channel: string)

  /** Where a call falls in the sequence of kinds that closing and then joining walk through. */
  function Phase(c: Call): nat
  {
    match c
    case CloseListener(_) => 0
    case ClosePipe(_) => 1
    case CloseTransport(_) => 2
    case CloseChannel(d, _) => if d == Cpu then 3 else 4
    case JoinTransport(_) => 5
    case JoinChannel(d, _) => if d == Cpu then 6 else 7
  }

  function CloseChannels(d: Device, cs: seq<string>): seq<Call>
  {
    seq(|cs|, i requires 0 <= i < |cs| => CloseChannel(d, cs[i]))
  }

  function JoinChannels(d: Device, cs: seq<string>): seq<Call>
  {
    seq(|cs|, i requires 0 <= i < |cs| => JoinChannel(d, cs[i]))
  }

  /**
   * Closing's calls: the listeners `ls`, the pipes `ps`, the transports
   * `ts`, the CPU channels `cpu` and the CUDA channels `cuda`, in that order.
   */
  function CloseCalls(ls: seq<nat>, ps: seq<nat>, ts: seq<string>, cpu: seq<string>, cuda: seq<string>): seq<Call>
  {
    seq(|ls|, i requires 0 <= i < |ls| => CloseListener(ls[i]))
    + seq(|ps|, i requires 0 <= i < |ps| => ClosePipe(ps[i]))
    + seq(|ts|, i requires 0 <= i < |ts| => CloseTransport(ts[i]))
    + CloseChannels(Cpu, cpu) + CloseChannels(Cuda, cuda)
  }

  /** Joining's calls: the transports `ts`, then the CPU channels `cpu`, then the CUDA channels `cuda`. */
  function JoinCalls(ts: seq<string>, cpu: seq<string>, cuda: seq<string>): seq<Call>
  {
    seq(|ts|, i requires 0 <= i < |ts| => JoinTransport(ts[i]))
    + JoinChannels(Cpu, cpu) + JoinChannels(Cuda, cuda)
  }

  /** No call of a later kind comes before a call of an earlier one. */
  predicate InPhaseOrder(log: seq<Call>)
  {
    forall i, j :: 0 <= i < j < |log| ==> Phase(log[i]) <= Phase(log[j])
  }

  predicate PhasesAtMost(log: seq<Call>, p: nat)
  {
    forall i :: 0 <= i < |log| ==> Phase(log[i]) <= p
  }

  /** Appending calls of one kind `p` after calls of kinds up to `p` keeps the order. */
  lemma AppendInPhaseOrder(a: seq<Call>, b: seq<Call>, p: nat)
    requires InPhaseOrder(a) && PhasesAtMost(a, p)
    requires forall i :: 0 <= i < |b| ==> Phase(b[i]) == p
    ensures InPhaseOrder(a + b) && PhasesAtMost(a + b, p)
  {
    forall i, j | 0 <= i < j < |a + b| ensures Phase((a + b)[i]) <= Phase((a + b)[j]) {
      if j < |a| {
        assert (a + b)[i] == a[i] && (a + b)[j] == a[j];
      } else if i < |a| {
        assert (a + b)[i] == a[i] && (a + b)[j] == b[j - |a|];
      } else {
        assert (a + b)[i] == b[i - |a|] && (a + b)[j] == b[j - |a|];
      }
    }
  }

  /**
   * Closing and then joining make their calls kind by kind: every listener
   * before any pipe, every pipe before any transport, every transport
   * before any channel, CPU channels before CUDA ones, and every close
   * before any join, whose transports come before their channels.
   */
  lemma {:induction false} CloseThenJoinInPhaseOrder(ls: seq<nat>, ps: seq<nat>, ts: seq<string>,
                                                    cpu: seq<string>, cuda: seq<string>,
                                                    jts: seq<string>, jcpu: seq<string>, jcuda: seq<string>)
    ensures InPhaseOrder(CloseCalls(ls, ps, ts, cpu, cuda) + JoinCalls(jts, jcpu, jcuda))
  {
    var l := seq(|ls|, i requires 0 <= i < |ls| => CloseListener(ls[i]));
    var p := seq(|ps|, i requires 0 <= i < |ps| => ClosePipe(ps[i]));
    var t := seq(|ts|, i requires 0 <= i < |ts| => CloseTransport(ts[i]));
    var c1, c2 := CloseChannels(Cpu, cpu), CloseChannels(Cuda, cuda);
    var jt := seq(|jts|, i requires 0 <= i < |jts| => JoinTransport(jts[i]));
    var j1, j2 := JoinChannels(Cpu, jcpu), JoinChannels(Cuda, jcuda);
    AppendInPhaseOrder([], l, 0);
    assert [] + l == l;
    AppendInPhaseOrder(l, p, 1);
    AppendInPhaseOrder(l + p, t, 2);
    AppendInPhaseOrder(l + p + t, c1, 3);
    AppendInPhaseOrder(l + p + t + c1, c2, 4);
    AppendInPhaseOrder(l + p + t + c1 + c2, jt, 5);
    AppendInPhaseOrder(l + p + t + c1 + c2 + jt, j1, 6);
    AppendInPhaseOrder(l + p + t + c1 + c2 + jt + j1, j2, 7);
    assert CloseCalls(ls, ps, ts, cpu, cuda) + JoinCalls(jts, jcpu, jcuda) == l + p + t + c1 + c2 + jt + j1 + j2;
  }

  /** Removing `b` from `a` leaves nothing exactly when `b` covers `a`. */
  lemma EmptyDifference<T>(a: set<T>, b: set<T>)
    ensures a - b == {} <==> a <= b
  {
    if a - b == {} {
      forall x | x in a ensures x in b {
        assert x !in a - b;
      }
    }
  }

  /** The order in which closing happened to walk each unordered map. */
  datatype CloseWalk = CloseWalk(listeners: seq<nat>, pipes: seq<nat>, transports: seq<string>,
                                 cpuChannels: seq<string>, cudaChannels: seq<string>)

  /** The order in which joining happened to walk each unordered map. */
  datatype JoinWalk = JoinWalk(transports: seq<string>, cpuChannels: seq<string>, cudaChannels: seq<string>)

  datatype Device = Cpu | Cuda

  class Context {
    const id: string
    var transports: Registry
    var cpuChannels: Registry
    var cudaChannels: Registry
    /** The listeners and pipes enrolled with the context. */
    var listeners: set<nat>
    var pipes: set<nat>
    var listenerCounter: nat
    var pipeCounter: nat
    var closed: bool
    var joined: bool
    /** The calls closing and joining have made, in the order they made them. */
    var calls: seq<Call>
    /**
     * The order in which closing and joining happened to walk each unordered
     * map; only the calls above are observable.
     */
    ghost var closeWalk: CloseWalk
    ghost var joinWalk: JoinWalk

    predicate RegistriesValid()
      reads this`transports, this`cpuChannels, this`cudaChannels
    {
      RegistryValid(transports) && RegistryValid(cpuChannels) && RegistryValid(cudaChannels)
    }

    predicate Valid()
      reads this`transports, this`cpuChannels, this`cudaChannels, this`closed, this`joined, this`calls
    {
      && RegistriesValid()
      && (joined ==> closed)
      && (!closed ==> calls == [])
    }

    /** Closing's calls, in the orders its walk took. */
    ghost function ClosePass(): seq<Call>
      reads this`closeWalk
    {
      CloseCalls(closeWalk.listeners, closeWalk.pipes, closeWalk.transports,
                 closeWalk.cpuChannels, closeWalk.cudaChannels)
    }

    /** Joining's calls, in the orders its walk took. */
    ghost function JoinPass(): seq<Call>
      reads this`joinWalk
    {
      JoinCalls(joinWalk.transports, joinWalk.cpuChannels, joinWalk.cudaChannels)
    }

    /** `ts`, `cpu` and `cuda` each hold every registered transport, CPU channel and CUDA channel once. */
    predicate WalksRegistries(ts: seq<string>, cpu: seq<string>, cuda: seq<string>)
      reads this`transports, this`cpuChannels, this`cudaChannels
    {
      && multiset(ts) == multiset(transports.byName.Keys)
      && multiset(cpu) == multiset(cpuChannels.byName.Keys)
      && multiset(cuda) == multiset(cudaChannels.byName.Keys)
    }

    /**
     * Closing's walk met every listener of `ls` and pipe of `ps` (the copies
     * it took) and every transport and channel once.
     */
    ghost predicate CloseWalkOver(ls: set<nat>, ps: set<nat>)
      reads this`closeWalk, this`transports, this`cpuChannels, this`cudaChannels
    {
      && multiset(closeWalk.listeners) == multiset(ls)
      && multiset(closeWalk.pipes) == multiset(ps)
      && WalksRegistries(closeWalk.transports, closeWalk.cpuChannels, closeWalk.cudaChannels)
    }

    /** Joining's walk met every transport and channel once. */
    ghost predicate JoinWalkComplete()
      reads this`joinWalk, this`transports, this`cpuChannels, this`cudaChannels
    {
      WalksRegistries(joinWalk.transports, joinWalk.cpuChannels, joinWalk.cudaChannels)
    }

    /** A context for the `n`th context created by process `pid`, named `name` (possibly empty). */
    constructor(name: string, pid: nat, n: nat)
      ensures Valid() && !closed && !joined
      ensures id == ContextId(name, pid, n)
      ensures transports == EmptyRegistry && cpuChannels == EmptyRegistry && cudaChannels == EmptyRegistry
      ensures listeners == {} && pipes == {} && listenerCounter == 0 && pipeCounter == 0
    {
      id := ContextId(name, pid, n);
      transports := EmptyRegistry;
      cpuChannels := EmptyRegistry;
      cudaChannels := EmptyRegistry;
      listeners := {};
      pipes := {};
      listenerCounter := 0;
      pipeCounter := 0;
      closed := false;
      joined := false;
      calls := [];
    }

    /**
     * Registers a transport context, giving it the identifier
     * `id + ".tr_" + name`; `fault` is the fatal assertion it hit, if any.
     */
    method RegisterTransport(priority: int, name: string, ctx: nat, viable: bool) returns (fault: Option<Fault>)
      requires Valid()
      modifies this`transports
      ensures Valid()
      ensures var res := Register(old(transports), priority, name, ctx, viable, id + ".tr_" + name);
        && (res.Fatal? ==> fault == Some(res.fault) && transports == old(transports))
        && (res.Done? ==> fault == None && transports == res.reg)
    {
      var res := Register(transports, priority, name, ctx, viable, id + ".tr_" + name);
      if res.Fatal? {
        return Some(res.fault);
      }
      RegisterKeepsValid(transports, priority, name, ctx, viable, id + ".tr_" + name);
      transports := res.reg;
      return None;
    }

    /**
     * Registers a channel context for buffers of one device type, giving it
     * the identifier `id + ".ch_" + name`; `fault` is the fatal assertion it
     * hit, if any.
     */
    method RegisterChannel(device: Device, priority: int, name: string, ctx: nat, viable: bool) returns (fault: Option<Fault>)
      requires Valid()
      modifies this`cpuChannels, this`cudaChannels
      ensures Valid()
      ensures var before := if device == Cpu then old(cpuChannels) else old(cudaChannels);
        var after := if device == Cpu then cpuChannels else cudaChannels;
        var res := Register(before, priority, name, ctx, viable, id + ".ch_" + name);
        && (res.Fatal? ==> fault == Some(res.fault) && after == before)
        && (res.Done? ==> fault == None && after == res.reg)
      ensures device == Cpu ==> cudaChannels == old(cudaChannels)
      ensures device == Cuda ==> cpuChannels == old(cpuChannels)
    {
      var channels := if device == Cpu then cpuChannels else cudaChannels;
      var res := Register(channels, priority, name, ctx, viable, id + ".ch_" + name);
      if res.Fatal? {
        return Some(res.fault);
      }
      RegisterKeepsValid(channels, priority, name, ctx, viable, id + ".ch_" + name);
      if device == Cpu {
        cpuChannels := res.reg;
      } else {
        cudaChannels := res.reg;
      }
      return None;
    }

    /** The transport context registered under `name`, or None for EINVAL. */
    function GetTransport(name: string): (r: Option<Entry>)
      reads this
      ensures r.Some? <==> name in transports.byName
      ensures r.Some? ==> r.value == transports.byName[name]
    {
      Lookup(transports, name)
    }

    /** The channel context for `device` registered under `name`, or None for EINVAL. */
    function GetChannel(device: Device, name: string): (r: Option<Entry>)
      reads this
      ensures var channels := if device == Cpu then cpuChannels else cudaChannels;
        (r.Some? <==> name in channels.byName) && (r.Some? ==> r.value == channels.byName[name])
    {
      Lookup(if device == Cpu then cpuChannels else cudaChannels, name)
    }

    /** Opens a listener, named after the context and the listener counter. */
    method Listen() returns (listenerId: string)
      modifies this`listenerCounter
      ensures listenerId == ListenerId(id, old(listenerCounter))
      ensures listenerCounter == old(listenerCounter) + 1
    {
      listenerId := ListenerId(id, listenerCounter);
      listenerCounter := listenerCounter + 1;
    }

    /**
     * Opens a pipe, named after the context and the pipe counter, or after
     * the remote context's name when it is given; the counter advances
     * either way.
     */
    method Connect(remoteName: string) returns (pipeId: string)
      modifies this`pipeCounter
      ensures pipeId == PipeId(id, old(pipeCounter), remoteName)
      ensures pipeCounter == old(pipeCounter) + 1
    {
      pipeId := id + ".p" + NatToString(pipeCounter);
      pipeCounter := pipeCounter + 1;
      if remoteName != "" {
        pipeId := id + "_to_" + remoteName;
      }
    }

    /** Enrolls a listener, which must not be enrolled already. */
    method EnrollListener(l: nat)
      requires l !in listeners
      modifies this`listeners
      ensures listeners == old(listeners) + {l}
    {
      listeners := listeners + {l};
    }

    /** Enrolls a pipe, which must not be enrolled already. */
    method EnrollPipe(p: nat)
      requires p !in pipes
      modifies this`pipes
      ensures pipes == old(pipes) + {p}
    {
      pipes := pipes + {p};
    }

    /** Unenrolls a listener, which must be enrolled. */
    method UnenrollListener(l: nat)
      requires l in listeners
      modifies this`listeners
      ensures listeners == old(listeners) - {l} && |listeners| == |old(listeners)| - 1
    {
      listeners := listeners - {l};
    }

    /** Unenrolls a pipe, which must be enrolled. */
    method UnenrollPipe(p: nat)
      requires p in pipes
      modifies this`pipes
      ensures pipes == old(pipes) - {p} && |pipes| == |old(pipes)| - 1
    {
      pipes := pipes - {p};
    }

    /**
     * Closing, as the loop runs it: the first time only, close every
     * listener and pipe enrolled at that moment (walking copies of the two
     * maps), then every transport, then every channel of the CPU and then of
     * the CUDA device type. Closing a listener or a pipe makes it fail, and
     * those in `inlineListeners` and `inlinePipes` unenroll themselves while
     * doing so.
     */
    method Close(inlineListeners: set<nat>, inlinePipes: set<nat>)
      requires Valid()
      modifies this`closed, this`calls, this`closeWalk, this`listeners, this`pipes
      ensures Valid() && closed
      ensures old(closed) ==> calls == old(calls) && listeners == old(listeners) && pipes == old(pipes)
      ensures !old(closed) ==> calls == ClosePass() && CloseWalkOver(old(listeners), old(pipes))
      ensures !old(closed) ==> listeners == old(listeners) - inlineListeners && pipes == old(pipes) - inlinePipes
    {
      if !closed {
        CloseOnce(inlineListeners, inlinePipes);
      }
    }

    /** Closing's body, run the first time only. */
    method CloseOnce(inlineListeners: set<nat>, inlinePipes: set<nat>)
      requires Valid() && !closed
      modifies this`closed, this`calls, this`closeWalk, this`listeners, this`pipes
      ensures Valid() && closed
      ensures calls == ClosePass() && CloseWalkOver(old(listeners), old(pipes))
      ensures listeners == old(listeners) - inlineListeners && pipes == old(pipes) - inlinePipes
    {
      closed := true;
      CloseAll(inlineListeners, inlinePipes);
    }

    /**
     * Closes every listener and pipe of copies of the two maps, those in
     * `inlineListeners` and `inlinePipes` unenrolling as they are closed,
     * then every transport, then every channel.
     */
    method CloseAll(inlineListeners: set<nat>, inlinePipes: set<nat>)
      modifies this`calls, this`closeWalk, this`listeners, this`pipes
      ensures calls == old(calls) + ClosePass() && CloseWalkOver(old(listeners), old(pipes))
      ensures listeners == old(listeners) - inlineListeners && pipes == old(pipes) - inlinePipes
    {
      var ls := Visit(listeners);
      var ps := Visit(pipes);
      var ts := Visit(transports.byName.Keys);
      var cpu, cuda := VisitChannels();
      calls := calls + CloseCalls(ls, ps, ts, cpu, cuda);
      closeWalk := CloseWalk(ls, ps, ts, cpu, cuda);
      Unenroll(inlineListeners, inlinePipes);
    }

    /** The listeners `ls` and the pipes `ps` unenroll themselves. */
    method Unenroll(ls: set<nat>, ps: set<nat>)
      modifies this`listeners, this`pipes
      ensures listeners == old(listeners) - ls && pipes == old(pipes) - ps
    {
      listeners := listeners - ls;
      pipes := pipes - ps;
    }

    /** Joins every transport, then every channel. */
    method JoinAll()
      modifies this`calls, this`joinWalk
      ensures calls == old(calls) + JoinPass() && JoinWalkComplete()
    {
      var ts := Visit(transports.byName.Keys);
      var cpu, cuda := VisitChannels();
      calls := calls + JoinCalls(ts, cpu, cuda);
      joinWalk := JoinWalk(ts, cpu, cuda);
    }

    /** Walks the channels of every device type, the CPU ones first. */
    method VisitChannels() returns (cpu: seq<string>, cuda: seq<string>)
      ensures multiset(cpu) == multiset(cpuChannels.byName.Keys)
      ensures multiset(cuda) == multiset(cudaChannels.byName.Keys)
    {
      cpu := Visit(cpuChannels.byName.Keys);
      cuda := Visit(cudaChannels.byName.Keys);
    }

    /**
     * Joining: close, then, the first time only, wait for the loop and join
     * every transport and every channel. The listeners and pipes in
     * `goneListeners` and `gonePipes` unenroll by then, inline as they are
     * closed or in a callback the loop runs before joining's own task.
     * `drained` tells whether the first join's checks that nothing is left
     * enrolled hold; a repeat join checks nothing.
     */
    method Join(goneListeners: set<nat>, gonePipes: set<nat>) returns (drained: bool)
      requires Valid()
      modifies this`closed, this`calls, this`closeWalk, this`listeners, this`pipes
      modifies this`joined, this`joinWalk
      ensures Valid() && closed && joined
      ensures old(joined) ==> calls == old(calls) && listeners == old(listeners) && pipes == old(pipes) && drained
      ensures !old(closed) ==> calls == ClosePass() + JoinPass() && CloseWalkOver(old(listeners), old(pipes)) && JoinWalkComplete()
      ensures old(closed) && !old(joined) ==> calls == old(calls) + JoinPass() && JoinWalkComplete()
      ensures !old(joined) ==> listeners == old(listeners) - goneListeners && pipes == old(pipes) - gonePipes
      ensures !old(joined) ==> (drained <==> old(listeners) <= goneListeners && old(pipes) <= gonePipes)
    {
      Close(goneListeners, gonePipes);
      if joined {
        return true;
      }
      drained := JoinOnce(goneListeners, gonePipes);
    }

    /**
     * Joining's body, run the first time only, once closing has happened:
     * the listeners and pipes that unenroll in callbacks the loop runs
     * before it are gone, then every transport and every channel is joined.
     */
    method JoinOnce(goneListeners: set<nat>, gonePipes: set<nat>) returns (drained: bool)
      requires Valid() && closed && !joined
      modifies this`calls, this`joined, this`joinWalk, this`listeners, this`pipes
      ensures Valid() && joined
      ensures calls == old(calls) + JoinPass() && JoinWalkComplete()
      ensures listeners == old(listeners) - goneListeners && pipes == old(pipes) - gonePipes
      ensures drained <==> old(listeners) <= goneListeners && old(pipes) <= gonePipes
    {
      Unenroll(goneListeners, gonePipes);
      assert Valid();
      joined := true;
      JoinAll();
      drained := listeners == {} && pipes == {};
      EmptyDifference(old(listeners), goneListeners);
      EmptyDifference(old(pipes), gonePipes);
    }
  }
}
