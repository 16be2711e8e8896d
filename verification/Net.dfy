/** IP and socket addresses as the operating system hands them over. */
module Net {
  import opened Wire
  import A = Addressing

  datatype IpAddr = IpV4(v4: Octets4) | IpV6(v6: Octets16)

  /** An IPv6 socket address also has a flow label and a scope identifier. */
  datatype SocketAddr =
    | SocketV4(v4: Octets4, port: Port)
    | SocketV6(v6: Octets16, port: Port, flow: UInt32, scope: UInt32)
  {
    function Ip(): IpAddr {
      if SocketV4? then IpV4(v4) else IpV6(v6)
    }
  }

  /** `SocketAddr::new`. */
  function SocketOf(ip: IpAddr, port: Port): SocketAddr {
    match ip
    case IpV4(octets) => SocketV4(octets, port)
    case IpV6(octets) => SocketV6(octets, port, 0, 0)
  }

  predicate NoDuplicates(s: seq<SocketAddr>) {
    forall i, j :: 0 <= i < j < |s| ==> s[i] != s[j]
  }

  const ZERO10: Bytes := [0, 0, 0, 0, 0, 0, 0, 0, 0, 0]

  /** The IPv4-mapped and IPv4-compatible forms of section 2.5.5 of RFC 4291. */
  function Mapped(v4: Octets4): (ip: IpAddr)
    ensures ip.IpV6?
  {
    IpV6(ZERO10 + [0xFF, 0xFF] + v4)
  }

  function Compatible(v4: Octets4): (ip: IpAddr)
    ensures ip.IpV6?
  {
    IpV6(ZERO10 + [0, 0] + v4)
  }

  /** `Ipv6Addr::to_ipv4`. */
  function ToIpv4(v6: Octets16): Option<Octets4> {
    if v6[..10] == ZERO10 && (v6[10..12] == [0, 0] || v6[10..12] == [0xFF, 0xFF]) then Some(v6[12..])
    else None
  }

  /** `IpAddr::to_canonical`: only the mapped form is folded. */
  function Canonical(ip: IpAddr): IpAddr {
    if ip.IpV6? && ip.v6[..10] == ZERO10 && ip.v6[10..12] == [0xFF, 0xFF] then IpV4(ip.v6[12..]) else ip
  }

  /** Exactly an IPv4 address and its mapped form are canonically that address. */
  lemma CanonicalIff(ip: IpAddr, v4: Octets4)
    ensures Canonical(ip) == IpV4(v4) <==> ip == IpV4(v4) || ip == Mapped(v4)
    ensures Canonical(ip).IpV6? ==> Canonical(ip) == ip
  {
    assert Mapped(v4).v6[..10] == ZERO10 && Mapped(v4).v6[10..12] == [0xFF, 0xFF] && Mapped(v4).v6[12..] == v4;
    if ip.IpV6? {
      assert ip.v6 == ip.v6[..10] + ip.v6[10..12] + ip.v6[12..];
    }
  }

  /** `addr_from_socket` and `socket_addr_to_address`. */
  function ToAddress(s: SocketAddr): (a: A.Address)
    ensures A.Encodable(a)
  {
    match s
    case SocketV4(octets, port) => A.V4(octets, port)
    case SocketV6(octets, port, _, _) => A.V6(octets, port)
  }

  /** The socket address of a target that needs no lookup. */
  function Literal(a: A.Address): (r: Option<SocketAddr>)
    ensures r.Some? ==> ToAddress(r.value) == a
    ensures r.None? <==> a.Domain?
  {
    match a
    case V4(octets, port) => Some(SocketOf(IpV4(octets), port))
    case V6(octets, port) => Some(SocketOf(IpV6(octets), port))
    case Domain(_, _) => None
  }
}
