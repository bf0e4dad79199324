/**
  A Kademlia contact: a node id and, when the contact stands for a
  reachable endpoint, its socket address. Ids are derived by hashing
  either 16 random bytes or the 18-byte address block.
 */
module Contacts {

  import opened Options
  import opened NodeIds
  import opened Addresses

  /** The 512-bit hash (blake512) ids are derived with; callers supply it. */
  type Hasher = seq<bv8> -> NodeId

  datatype Contact = Contact(id: NodeId, addr: Option<SocketAddr>)

  /** Number of random bytes hashed into a random id. */
  const RAND_BLOCK_SIZE: nat := 16

  /** The bytes drawn from the random source, one per element of the block. */
  type RandBlock = s: seq<bv8> | |s| == RAND_BLOCK_SIZE witness seq(16, _ => 0)

  /** A contact with the given id and no address (a test fixture in the source). */
  function FromHash(id: NodeId): (c: Contact)
    ensures c.id == id && c.addr == None
  {
    Contact(id, None)
  }

  /**
    A contact with a random id: fills a 16-byte block with the drawn bytes,
    one element at a time, and hashes it. It carries no address.
   */
  method Random(draws: RandBlock, hash: Hasher) returns (c: Contact)
    ensures c.id == hash(draws)
    ensures c.addr == None
  {
    var randBlock := new bv8[RAND_BLOCK_SIZE](_ => 0);
    for i := 0 to RAND_BLOCK_SIZE
      invariant forall k :: 0 <= k < i ==> randBlock[k] == draws[k]
    {
      randBlock[i] := draws[i];
    }
    assert randBlock[..] == draws;
    c := Contact(hash(randBlock[..]), None);
  }

  /**
    `Contact::hash`: writes the address's IPv6 octets into bytes 0..16 of an
    18-byte block, the port into bytes 16 and 17, and hashes the block.
   */
  method HashAddress(ip: IpAddr, port: Port, hash: Hasher) returns (id: NodeId)
    ensures id == hash(Block(ip, port))
  {
    var block := new bv8[BLOCK_SIZE](_ => 0);
    var octets: Ipv6Octets;
    match ip {
      case V4(v4) => octets := ToIpv6Mapped(v4);
      case V6(v6) => octets := v6;
    }
    forall i | 0 <= i < 16 {
      block[i] := octets[i];
    }
    block[16] := ((port >> 8) & 0xff) as bv8;
    block[17] := (port & 0xff) as bv8;
    assert block[..] == Block(ip, port);
    id := hash(block[..]);
  }

  /** A contact for a concrete endpoint: its id is the hash of the address block. */
  method New(ip: IpAddr, port: Port, hash: Hasher) returns (c: Contact)
    ensures c.id == hash(Block(ip, port))
    ensures c.addr == Some(SocketAddr(ip, port))
  {
    var id := HashAddress(ip, port, hash);
    c := Contact(id, Some(SocketAddr(ip, port)));
  }

  /** The id an endpoint is given, as a function for use in lemmas. */
  function AddressId(ip: IpAddr, port: Port, hash: Hasher): NodeId
  {
    hash(Block(ip, port))
  }

  /** Endpoints with the same octets and port get the same id, whatever the hash. */
  lemma SameEndpointSameId(ip1: IpAddr, port1: Port, ip2: IpAddr, port2: Port, hash: Hasher)
    requires Octets(ip1) == Octets(ip2) && port1 == port2
    ensures AddressId(ip1, port1, hash) == AddressId(ip2, port2, hash)
  {
  }

  /**
    `log2_distance`: XORs the two ids, copies the result into a byte array,
    and counts the zero bits before the first set bit, byte 0 first and each
    byte from mask 0x80 down to 0x01 (`MaskSet(byte, k)` is `byte & MASKS[k] != 0`),
    stopping at the first set bit. The result is B minus that count.
   */
  method Log2Distance(self: Contact, target: Contact) returns (d: nat)
    ensures d <= B
    ensures d == Distance(self.id, target.id)
  {
    var distance := Xor(self.id, target.id);
    assert B % 8 == 0;
    var distanceAsBytes := new bv8[BYTES_SIZE](_ => 0);
    forall i | 0 <= i < BYTES_SIZE {
      distanceAsBytes[i] := distance[i];
    }
    var samePrefixLength: nat := 0;
    label outer:
    for i := 0 to BYTES_SIZE
      modifies {}
      invariant samePrefixLength == 8 * i
      invariant forall m :: 0 <= m < i ==> distance[m] == 0
    {
      var byte := distanceAsBytes[i];
      for k := 0 to 8
        modifies {}
        invariant samePrefixLength == 8 * i + k
        invariant forall q :: 0 <= q < k ==> !MaskSet(byte, q)
      {
        if MaskSet(byte, k) {
          LeadingZerosFirstSetBit(distance, i, k);
          break outer;
        }
        samePrefixLength := samePrefixLength + 1;
      }
      ByteZero(byte);
    }
    if samePrefixLength == B {
      LeadingZerosAllZero(distance);
    }
    d := B - samePrefixLength;
  }

  /** Two contacts built from 127.0.0.1:8000 are at distance 0. */
  method SameHostAtDistanceZero(hash: Hasher) returns (d: nat)
    ensures d == 0
  {
    var localhost := V4([127, 0, 0, 1]);
    var c1 := New(localhost, 8000, hash);
    var c2 := New(localhost, 8000, hash);
    d := Log2Distance(c1, c2);
    DistanceSelf(c1.id);
  }

  /** Ids differing only in the least significant bit are at distance 1. */
  method LeastSignificantBitAtDistanceOne() returns (d: nat)
    ensures d == 1
  {
    var c1 := FromHash(ZERO_ID);
    var c2 := FromHash(ZERO_ID[BYTES_SIZE - 1 := 0x01]);
    d := Log2Distance(c1, c2);
    DistanceLeastSignificantBit();
  }

  /** Ids differing in the most significant bit are at distance B. */
  method MostSignificantBitAtDistanceB() returns (d: nat)
    ensures d == B
  {
    var c1 := FromHash(ZERO_ID);
    var c2 := FromHash(ZERO_ID[0 := 0x80]);
    d := Log2Distance(c1, c2);
    DistanceMostSignificantBit();
  }
}
