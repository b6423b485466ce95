/**
 * The address lookups and the domain descriptor of
 * tensorpipe/transport/uv/context_impl.cc, where libuv lists the interfaces,
 * gets the hostname, resolves it and binds; its negative results become
 * UVError.
 */
module UvContext {
  import opened Common
  import opened Operations
  import opened TransportContext

  /** `"uv:*"`. */
  function GenerateDomainDescriptor(): (d: string)
    ensures d == DomainDescriptor("uv")
  {
    "uv:" + "*"
  }

  /** A negative libuv result as an error. */
  function UvResult(rv: int): (e: Error)
    ensures rv < 0 <==> e != NoError
    ensures rv < 0 ==> e == UVError(rv)
  {
    if rv < 0 then UVError(rv) else NoError
  }

  /** An entry of libuv's interface list (`uv_interface_address_t`): a name and an address, always present. */
  datatype InterfaceAddress = InterfaceAddress(name: string, address: SockAddr)

  /**
   * A libuv entry as an entry of the interface list: the lookup for `iface`
   * may use it exactly when it is named `iface` and is an IPv4 or IPv6
   * address, and then it gives that address.
   */
  function AsInterface(e: InterfaceAddress): (ifa: Interface)
    ensures forall iface :: Usable(ifa, iface) <==> e.name == iface && (e.address.family == AfInet || e.address.family == AfInet6)
    ensures forall iface :: Usable(ifa, iface) ==> ifa.addr.value == e.address
  {
    Interface(e.name, Some(e.address))
  }

  /**
   * The address of the first of libuv's `count` entries named `iface` with
   * an IPv4 or IPv6 address; UVError when listing failed, or
   * NoAddrFoundError.
   */
  method LookupAddrForIface(rv: int, entries: seq<InterfaceAddress>, iface: string) returns (r: Lookup)
    ensures rv < 0 ==> r == Failed(UVError(rv))
    ensures rv >= 0 && r.Found? ==>
      exists i :: 0 <= i < |entries| && Usable(AsInterface(entries[i]), iface) && r.addr == entries[i].address.text
                  && forall j :: 0 <= j < i ==> !Usable(AsInterface(entries[j]), iface)
    ensures rv >= 0 && r.Failed? ==>
      r.error == NoAddrFoundError && forall i :: 0 <= i < |entries| ==> !Usable(AsInterface(entries[i]), iface)
  {
    var ifas := seq(|entries|, i requires 0 <= i < |entries| => AsInterface(entries[i]));
    r := TransportContext.LookupAddrForIface(UvResult(rv), ifas, iface);
    assert forall i :: 0 <= i < |entries| ==> ifas[i] == AsInterface(entries[i]);
    if rv >= 0 && r.Found? {
      var i :| 0 <= i < |ifas| && Usable(ifas[i], iface) && r.addr == ifas[i].addr.value.text
               && forall j :: 0 <= j < i ==> !Usable(ifas[j], iface);
      assert ifas[i].addr.value == entries[i].address;
    }
  }

  /** One resolved address of the hostname, with what binding a TCP handle to it returned. */
  datatype Resolved = Resolved(addr: string, bindRv: int)

  /**
   * Run on the loop: the first resolved address that binds; otherwise the
   * first bind error, or NoAddrFoundError when the hostname resolved to
   * nothing. Failing to get or resolve the hostname comes first.
   */
  method LookupAddrForHostnameFromLoop(hostnameRv: int, resolveRv: int, resolved: seq<Resolved>) returns (r: Lookup)
    ensures hostnameRv < 0 ==> r == Failed(UVError(hostnameRv))
    ensures hostnameRv >= 0 && resolveRv < 0 ==> r == Failed(UVError(resolveRv))
    ensures hostnameRv >= 0 && resolveRv >= 0 && r.Found? ==>
      exists i :: 0 <= i < |resolved| && resolved[i].bindRv >= 0 && r.addr == resolved[i].addr
                  && forall j :: 0 <= j < i ==> resolved[j].bindRv < 0
    ensures hostnameRv >= 0 && resolveRv >= 0 && r.Failed? ==>
      && (forall i :: 0 <= i < |resolved| ==> resolved[i].bindRv < 0)
      && r.error == (if resolved == [] then NoAddrFoundError else UVError(resolved[0].bindRv))
  {
    var resolveError := if hostnameRv < 0 then UvResult(hostnameRv) else UvResult(resolveRv);
    var candidates := seq(|resolved|, i requires 0 <= i < |resolved| => Candidate(resolved[i].addr, UvResult(resolved[i].bindRv)));
    r := FirstBindable(resolveError, candidates);
    assert forall i :: 0 <= i < |resolved| ==> candidates[i].bindError == UvResult(resolved[i].bindRv);
  }
}
