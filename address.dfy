/**
  Socket addresses and the 18-byte block a contact's id is hashed from:
  16 bytes of IPv6 address followed by the port, high byte first.
 */
module Addresses {

  import opened Options

  /** A TCP/UDP port (Rust `u16`). */
  type Port = bv16

  type Ipv4Octets = s: seq<bv8> | |s| == 4 witness [0, 0, 0, 0]

  type Ipv6Octets = s: seq<bv8> | |s| == 16 witness seq(16, _ => 0)

  /** An IP address, reduced to its family and its octets. */
  datatype IpAddr = V4(v4: Ipv4Octets) | V6(v6: Ipv6Octets)

  datatype SocketAddr = SocketAddr(ip: IpAddr, port: Port)

  /** Length of the block hashed into an address-derived id. */
  const BLOCK_SIZE: nat := 18

  /** The first 12 bytes of an IPv4-mapped IPv6 address: ten 0x00, then two 0xff. */
  const MAPPED_PREFIX: seq<bv8> := [0, 0, 0, 0, 0, 0, 0, 0, 0, 0, 0xff, 0xff]

  /** The IPv4-mapped IPv6 address of section 2.5.5.2 of RFC 4291 (`Ipv4Addr::to_ipv6_mapped`). */
  function ToIpv6Mapped(o: Ipv4Octets): Ipv6Octets
  {
    MAPPED_PREFIX + o
  }

  /** The IPv4 address embedded in an IPv4-mapped IPv6 address, if it is one. */
  function Ipv4FromMapped(w: Ipv6Octets): Option<Ipv4Octets>
  {
    if w[..12] == MAPPED_PREFIX then Some(w[12..]) else None
  }

  /** Mapping an IPv4 address into IPv6 and back gives the address back. */
  lemma MappedRoundTrip(o: Ipv4Octets)
    ensures Ipv4FromMapped(ToIpv6Mapped(o)) == Some(o)
  {
  }

  /** Whatever Ipv4FromMapped recognises is the mapping of what it returns. */
  lemma MappedInverse(w: Ipv6Octets)
    ensures Ipv4FromMapped(w).Some? ==> ToIpv6Mapped(Ipv4FromMapped(w).value) == w
  {
  }

  /** The 16 octets an address contributes to the block. */
  function Octets(ip: IpAddr): Ipv6Octets
  {
    match ip
    case V4(v4) => ToIpv6Mapped(v4)
    case V6(v6) => v6
  }

  /**
    The two port bytes of the block, high byte first. The sum is taken in
    16 bits, where it cannot overflow: it is the port's value, byte 16 times 256 plus byte 17.
   */
  function PortBytes(port: Port): (r: seq<bv8>)
    ensures |r| == 2 && (r[0] as Port) * 256 + r[1] as Port == port
  {
    [((port >> 8) & 0xff) as bv8, (port & 0xff) as bv8]
  }

  /** Reads a big-endian port back from its two bytes. */
  function PortFromBytes(hi: bv8, lo: bv8): Port
  {
    (hi as Port << 8) | lo as Port
  }

  /** Encoding a port and reading it back gives the port. */
  lemma PortRoundTrip(port: Port)
    ensures PortFromBytes(PortBytes(port)[0], PortBytes(port)[1]) == port
  {
  }

  /** Reading a port from two bytes and encoding it gives the two bytes. */
  lemma PortBytesRoundTrip(hi: bv8, lo: bv8)
    ensures PortBytes(PortFromBytes(hi, lo)) == [hi, lo]
  {
  }

  /** The port is recovered from bytes 16 and 17 of any block. */
  lemma BlockPortRoundTrip(ip: IpAddr, port: Port)
    ensures PortFromBytes(Block(ip, port)[16], Block(ip, port)[17]) == port
  {
  }

  /** The 18-byte block `Contact::hash` feeds to the hash function. */
  function Block(ip: IpAddr, port: Port): (r: seq<bv8>)
    ensures |r| == BLOCK_SIZE
    ensures ip.V4? ==> r[..10] == seq(10, _ => 0) && r[10..12] == [0xff, 0xff] && r[12..16] == ip.v4
    ensures ip.V6? ==> r[..16] == ip.v6
    ensures (r[16] as Port) * 256 + r[17] as Port == port
  {
    var r := Octets(ip) + PortBytes(port);
    assert r[16..] == PortBytes(port);
    r
  }

  /** An IPv4 address and an IPv6 address that is its IPv4-mapped form. */
  predicate MappedPair(x: IpAddr, y: IpAddr)
  {
    x.V4? && y.V6? && y.v6 == ToIpv6Mapped(x.v4)
  }

  /**
    Two addresses contribute the same octets exactly when they are equal or
    one is the IPv4-mapped form of the other.
   */
  lemma OctetsEqualIff(x: IpAddr, y: IpAddr)
    ensures Octets(x) == Octets(y) <==> x == y || MappedPair(x, y) || MappedPair(y, x)
  {
    if x.V4? && y.V4? && Octets(x) == Octets(y) {
      assert x.v4 == Octets(x)[12..] == Octets(y)[12..] == y.v4;
    }
  }

  /** Two blocks are equal exactly when the addresses give the same octets and the ports agree. */
  lemma BlockEqualIff(ip1: IpAddr, port1: Port, ip2: IpAddr, port2: Port)
    ensures Block(ip1, port1) == Block(ip2, port2) <==> Octets(ip1) == Octets(ip2) && port1 == port2
  {
  }

  /** An IPv4 address and its IPv4-mapped IPv6 form yield the same block. */
  lemma MappedAddressSameBlock(o: Ipv4Octets, port: Port)
    ensures Block(V4(o), port) == Block(V6(ToIpv6Mapped(o)), port)
  {
  }
}
