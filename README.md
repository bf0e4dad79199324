# Kademlia contact: node ids, address blocks and the XOR distance

This project models the peer-identity primitive of the node's Kademlia table
(`network/src/kademlia/contact.rs`) and proves properties of the model:

- **Node ids** are 512-bit values held as 64 bytes, most significant byte first
  (`NodeIds.NodeId`, with `B == 512` and `BYTES_SIZE == B / 8`).
- **Contacts** pair an id with an optional socket address (`Contacts.Contact`).
  Three constructors build them:
  - `New` hashes the address block of an IP and port, and records that address.
  - `Random` hashes 16 random bytes and records no address.
  - `FromHash` takes a given id and records no address.
- **The address block** (`Addresses.Block`, built in place by
  `Contacts.HashAddress`) has 18 bytes. Bytes 0..16 hold the IPv6 form of the
  address. An IPv4 address is embedded as an IPv4-mapped IPv6 address (section
  2.5.5.2 of RFC 4291): ten `0x00` bytes, two `0xff` bytes, then the four
  octets. Bytes 16 and 17 hold the port, high byte first.
- **The distance** `log2_distance` (`Contacts.Log2Distance`) XORs the two ids.
  It then scans the result byte by byte, testing each byte with masks `0x80`
  down to `0x01`. It counts zero bits until the first set bit and returns
  `B` minus that count. The method is proved equal to the reference function
  `NodeIds.Distance`, which is `B - LeadingZeros(a ^ b)`. The lemmas about
  `Distance` show:
  - the result lies in `[0, B]`;
  - it is the 1-based position, counted from the least significant end, of the
    highest bit in which the ids differ;
  - it is 0 exactly for equal ids;
  - it is symmetric;
  - it is an ultrametric;
  - it matches the three distance tests of the source.

The hash function (blake512) is a parameter `hash: seq<bv8> -> NodeId` of every
operation that derives an id. Nothing is assumed about it.

One consequence of the block layout differs from the general expectation that
different `(ip, port)` pairs get different ids. An IPv4 address and its
IPv4-mapped IPv6 form produce the same block (`Addresses.MappedAddressSameBlock`).
So `V4(a):p` and `V6(::ffff:a):p` always get the same id, whatever the hash. The
model follows the code here. `Addresses.OctetsEqualIff` and
`Addresses.BlockEqualIff` state exactly when two endpoints give equal blocks.

## Model

| member | source | states |
|---|---|---|
| `Contacts.FromHash` | network/src/kademlia/contact.rs:39-45 | the contact carries exactly the given id and no address |
| `Contacts.Random` | network/src/kademlia/contact.rs:20-30 | the 16-byte block filled element by element from the drawn bytes is hashed into the id; no address is attached |
| `Contacts.New` | network/src/kademlia/contact.rs:32-37 | the id is the hash of the address block of `(ip, port)` and the address is `Some((ip, port))` |
| `Contacts.HashAddress` | network/src/kademlia/contact.rs:47-56 | the 18-byte array written in place (octets, then high and low port byte) is exactly `Block(ip, port)`, and its hash is returned |
| `Addresses.Block` | network/src/kademlia/contact.rs:48-54 | the block has 18 bytes; for IPv4, bytes 0..10 are zero, bytes 10..12 are `0xff` and bytes 12..16 are the octets; for IPv6, bytes 0..16 are the octets; byte 16 times 256 plus byte 17 is the port |
| `Addresses.PortBytes` | network/src/kademlia/contact.rs:53-54 | two bytes whose big-endian value is the port |
| `Addresses.PortRoundTrip` | network/src/kademlia/contact.rs:53-54 | reading the two port bytes back gives the port |
| `Addresses.PortBytesRoundTrip` | network/src/kademlia/contact.rs:53-54 | encoding a port read from two bytes gives those two bytes back |
| `Addresses.BlockPortRoundTrip` | network/src/kademlia/contact.rs:47-56 | the port is recovered from bytes 16 and 17 of every block |
| `Addresses.MappedRoundTrip` | network/src/kademlia/contact.rs:50 | the IPv4-mapped form of an IPv4 address is recognised as mapped and yields that address back |
| `Addresses.MappedInverse` | network/src/kademlia/contact.rs:50 | any IPv6 address recognised as IPv4-mapped is the mapping of the IPv4 address it yields |
| `Addresses.OctetsEqualIff` | network/src/kademlia/contact.rs:49-52 | two addresses contribute equal 16 octets exactly when they are equal or one is the IPv4-mapped form of the other |
| `Addresses.BlockEqualIff` | network/src/kademlia/contact.rs:47-56 | two blocks are equal exactly when the octets and the ports agree |
| `Addresses.MappedAddressSameBlock` | network/src/kademlia/contact.rs:49-51 | an IPv4 address and its IPv4-mapped IPv6 form produce the same block for every port |
| `Contacts.SameEndpointSameId` | network/src/kademlia/contact.rs:47-56 | endpoints with the same octets and port are given the same id, whatever the hash |
| `Contacts.Log2Distance` | network/src/kademlia/contact.rs:58-77 | the nested byte/mask scan with its early break returns a value in `[0, B]` equal to `Distance(self.id, target.id)` |
| `NodeIds.Distance` | network/src/kademlia/contact.rs:76 | `B - same_prefix_length` lies in `[0, B]` |
| `NodeIds.LeadingZerosFrom` | network/src/kademlia/contact.rs:65-74 | counting clear bits from bit `j` ends between `j` and the last bit |
| `NodeIds.LeadingZeros` | network/src/kademlia/contact.rs:65-74 | the count of leading zero bits never exceeds the number of bits |
| `NodeIds.LeadingZerosFromBits` | network/src/kademlia/contact.rs:67-74 | every bit in the counted run from `j` is clear, and the run ends at a set bit or at the end |
| `NodeIds.LeadingZerosBits` | network/src/kademlia/contact.rs:67-74 | every bit before the count is clear, and the bit at the count is set unless the count is the width |
| `NodeIds.LeadingZerosUnique` | network/src/kademlia/contact.rs:67-74 | a clear prefix of length `n` that ends at a set bit or at the end determines the count: it is `n` |
| `NodeIds.LeadingZerosAllZero` | network/src/kademlia/contact.rs:67-76 | when every byte is zero the scan runs to the end and counts every bit |
| `NodeIds.LeadingZerosFirstSetBit` | network/src/kademlia/contact.rs:67-72 | when the bytes before `i` are zero, masks before `k` find nothing in byte `i` and mask `k` finds a bit, the count is `8 * i + k` |
| `NodeIds.BitXor` | network/src/kademlia/contact.rs:59 | a bit of `a ^ b` is set exactly when that bit of `a` and of `b` differ |
| `NodeIds.DistanceIsHighestDifferingBit` | network/src/kademlia/contact.rs:59-76 | all bits above position `B - d` agree, and when `d > 0` the bit at `B - d` differs: `d` is the 1-based position of the highest differing bit |
| `NodeIds.DistanceZeroIff` | network/src/kademlia/contact.rs:59-76 | the distance is 0 exactly when the ids are equal |
| `NodeIds.DistanceSelf` | network/src/kademlia/contact.rs:58-77 | every id is at distance 0 from itself |
| `NodeIds.DistanceSymmetric` | network/src/kademlia/contact.rs:59 | `Distance(a, b) == Distance(b, a)` |
| `NodeIds.DistanceUltrametric` | network/src/kademlia/contact.rs:59-76 | `Distance(a, b) <= max(Distance(a, c), Distance(c, b))` |
| `NodeIds.DistanceLeastSignificantBit` | network/src/kademlia/contact.rs:98-117 | the zero id and the id whose last byte is `0x01` are at distance 1 |
| `NodeIds.DistanceMostSignificantBit` | network/src/kademlia/contact.rs:120-139 | the zero id and the id whose first byte is `0x80` are at distance `B` |
| `NodeIds.NodeIdWidth` | network/src/kademlia/contact.rs:141-144 | an id is `B` bits wide and `B` is a multiple of 8 |
| `Contacts.SameHostAtDistanceZero` | network/src/kademlia/contact.rs:89-95 | two contacts built with `New` from 127.0.0.1:8000 are at distance 0 by `Log2Distance` |
| `Contacts.LeastSignificantBitAtDistanceOne` | network/src/kademlia/contact.rs:97-117 | `Log2Distance` of the two `FromHash` contacts that differ in the last bit is 1 |
| `Contacts.MostSignificantBitAtDistanceB` | network/src/kademlia/contact.rs:119-139 | `Log2Distance` of the two `FromHash` contacts that differ in the first bit is `B` |

## Left out

- blake512 (network/src/kademlia/contact.rs:15-17) is a foreign cryptographic call. It is a parameter `hash` here, on which nothing is assumed. So the model says nothing about hash collisions: distinct blocks may still get the same id.
- `rand::random::<u8>()` (network/src/kademlia/contact.rs:23-25) is a nondeterministic source. `Random` takes the 16 drawn bytes as a parameter instead.
- The internals of the `Public` id type are library code: its `^`, `copy_to` and `from_str`. `^` is modelled as bytewise XOR over 64 bytes and `copy_to` as copying the bytes unchanged. The tests' hex strings are written directly as byte sequences (`ZERO_ID` with one byte changed).
- `std::net` addresses are reduced to their octets: an IPv4 or IPv6 address is a tagged 4- or 16-byte sequence, and a socket address is that address plus a 16-bit port. `SocketAddr::new` is the `SocketAddr` constructor.
- `Addresses.Block`: states the port equation in 16-bit arithmetic (`bv16`), not over unbounded integers. That arithmetic cannot overflow here, so the equation is the same as the integer one.
- `debug_assert_eq!(B % 8, 0)` is an assertion inside `Log2Distance`. It holds because `B` is the constant 512.
- The distance's `usize` subtraction cannot wrap: the count never exceeds `B`, and the model proves this.
- json/src/uint.rs is serde glue for loading test fixtures. It delegates all parsing to `U256`, whose code is not part of this model.
