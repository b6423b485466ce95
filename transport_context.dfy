/**
 * What the transport contexts of tensorpipe/transport/ibv/context.cc and
 * tensorpipe/transport/uv/context_impl.cc share: the domain descriptor
 * naming the transport, and the two address lookups, by interface name and
 * by the machine's hostname.
 *
 * The interface list and the resolved candidate addresses are inputs, as
 * are the outcomes of creating and binding a socket for each candidate;
 * addresses are their printed form.
 */
module TransportContext {
  import opened Common
  import opened Operations

  /** The descriptor of a transport's domain: the transport's name, a colon and a wildcard. */
  function DomainDescriptor(transport: string): (d: string)
    ensures |d| == |transport| + 2
    ensures d[..|transport|] == transport && d[|transport|] == ':' && d[|transport| + 1] == '*'
  {
    transport + ":" + "*"
  }

  /** What comes before the first colon of `s` (all of `s` when it has none). */
  function BeforeColon(s: string): string
  {
    if s == [] || s[0] == ':' then [] else [s[0]] + BeforeColon(s[1..])
  }

  lemma {:induction false} BeforeColonOf(a: string, rest: string)
    requires ':' !in a && rest != [] && rest[0] == ':'
    ensures BeforeColon(a + rest) == a
  {
    if a == [] {
      assert a + rest == rest;
    } else {
      assert (a + rest)[1..] == a[1..] + rest;
      BeforeColonOf(a[1..], rest);
    }
  }

  /** Transports whose names hold no colon never share a descriptor. */
  lemma DomainDescriptorInjective(a: string, b: string)
    requires ':' !in a && ':' !in b
    requires DomainDescriptor(a) == DomainDescriptor(b)
    ensures a == b
  {
    assert DomainDescriptor(a) == a + ":*" && DomainDescriptor(b) == b + ":*";
    BeforeColonOf(a, ":*");
    BeforeColonOf(b, ":*");
  }

  datatype Family = AfInet | AfInet6 | OtherFamily(code: int)

  /** A socket address: its family and its printed form. */
  datatype SockAddr = SockAddr(family: Family, text: string)

  /** An entry of the interface list: its name and its address, which may be missing. */
  datatype Interface = Interface(name: string, addr: Option<SockAddr>)

  /** What a lookup gives: an address, or an error. */
  datatype Lookup = Found(addr: string) | Failed(error: Error)

  /** The entry has an address, is called `iface`, and is an IPv4 or IPv6 one. */
  predicate Usable(ifa: Interface, iface: string)
  {
    ifa.addr.Some? && ifa.name == iface && (ifa.addr.value.family == AfInet || ifa.addr.value.family == AfInet6)
  }

  /**
   * The address of the first usable entry named `iface`; when listing the
   * interfaces failed, that error; and NoAddrFoundError when no entry fits.
   */
  method LookupAddrForIface(listError: Error, ifas: seq<Interface>, iface: string) returns (r: Lookup)
    ensures listError != NoError ==> r == Failed(listError)
    ensures listError == NoError && r.Found? ==>
      exists i :: 0 <= i < |ifas| && Usable(ifas[i], iface) && r.addr == ifas[i].addr.value.text
                  && forall j :: 0 <= j < i ==> !Usable(ifas[j], iface)
    ensures listError == NoError && r.Failed? ==>
      r.error == NoAddrFoundError && forall i :: 0 <= i < |ifas| ==> !Usable(ifas[i], iface)
  {
    if listError != NoError {
      return Failed(listError);
    }
    var i := 0;
    while i < |ifas|
      invariant 0 <= i <= |ifas|
      invariant forall j :: 0 <= j < i ==> !Usable(ifas[j], iface)
    {
      var ifa := ifas[i];
      if ifa.addr.None? || ifa.name != iface {
        i := i + 1;
        continue;
      }
      match ifa.addr.value.family {
        case AfInet => return Found(ifa.addr.value.text);
        case AfInet6 => return Found(ifa.addr.value.text);
        case OtherFamily(_) =>
      }
      i := i + 1;
    }
    return Failed(NoAddrFoundError);
  }

  /** A resolved address of the hostname, and what creating and binding a socket for it gave. */
  datatype Candidate = Candidate(addr: string, bindError: Error)

  /**
   * The first candidate that binds; when none does, the first error met,
   * or NoAddrFoundError when there was no candidate at all. An error
   * getting the hostname or resolving it comes first.
   */
  method FirstBindable(resolveError: Error, candidates: seq<Candidate>) returns (r: Lookup)
    ensures resolveError != NoError ==> r == Failed(resolveError)
    ensures resolveError == NoError && r.Found? ==>
      exists i :: 0 <= i < |candidates| && candidates[i].bindError == NoError && r.addr == candidates[i].addr
                  && forall j :: 0 <= j < i ==> candidates[j].bindError != NoError
    ensures resolveError == NoError && r.Failed? ==>
      && (forall i :: 0 <= i < |candidates| ==> candidates[i].bindError != NoError)
      && r.error == (if candidates == [] then NoAddrFoundError else candidates[0].bindError)
  {
    if resolveError != NoError {
      return Failed(resolveError);
    }
    var firstError := NoError;
    var i := 0;
    while i < |candidates|
      invariant 0 <= i <= |candidates|
      invariant forall j :: 0 <= j < i ==> candidates[j].bindError != NoError
      invariant firstError == (if i == 0 then NoError else candidates[0].bindError)
    {
      var error := candidates[i].bindError;
      if error != NoError {
        if firstError == NoError {
          firstError := error;
        }
        i := i + 1;
        continue;
      }
      return Found(candidates[i].addr);
    }
    if firstError != NoError {
      return Failed(firstError);
    }
    return Failed(NoAddrFoundError);
  }
}
