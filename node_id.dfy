/**
  The identifier space of the Kademlia table: B-bit node ids held as
  B / 8 bytes, most significant byte first, and the XOR metric on them.
 */
module NodeIds {

  /** Bit width of the identifier space. */
  const B: nat := 512

  /** Number of bytes of a node id. */
  const BYTES_SIZE: nat := B / 8

  /** A node id: exactly BYTES_SIZE bytes, byte 0 the most significant. */
  type NodeId = s: seq<bv8> | |s| == BYTES_SIZE witness seq(64, _ => 0)

  /** The masks a byte is tested with, most significant bit first. */
  const MASKS: seq<bv8> := [0x80, 0x40, 0x20, 0x10, 0x08, 0x04, 0x02, 0x01]

  /** The id whose bits are all zero. */
  const ZERO_ID: NodeId := seq(BYTES_SIZE, _ => 0)

  /** Bytewise exclusive or, the `^` of the id type. */
  function Xor(a: NodeId, b: NodeId): NodeId
  {
    seq(BYTES_SIZE, i requires 0 <= i < BYTES_SIZE => a[i] ^ b[i])
  }

  /** Whether mask `k` finds a set bit in byte `b`. */
  predicate MaskSet(b: bv8, k: nat)
    requires k < 8
  {
    b & MASKS[k] != 0
  }

  /**
    Bit `j` of `x`, bits numbered from 0 in scan order: byte 0 first and,
    within a byte, from mask 0x80 down to mask 0x01.
   */
  predicate Bit(x: seq<bv8>, j: nat)
    requires j < 8 * |x|
  {
    MaskSet(x[j / 8], j % 8)
  }

  /** Number of consecutive zero bits of `x` starting at bit `j`. */
  function LeadingZerosFrom(x: seq<bv8>, j: nat): (r: nat)
    requires j <= 8 * |x|
    ensures j <= r <= 8 * |x|
    decreases 8 * |x| - j
  {
    if j == 8 * |x| then j
    else if Bit(x, j) then j
    else LeadingZerosFrom(x, j + 1)
  }

  /** Number of leading zero bits of `x`. */
  function LeadingZeros(x: seq<bv8>): (r: nat)
    ensures r <= 8 * |x|
  {
    LeadingZerosFrom(x, 0)
  }

  /**
    The metric: B minus the number of leading zero bits of `a ^ b`.
    This is the reference the scanning loop of Contacts.Log2Distance is proved against.
   */
  function Distance(a: NodeId, b: NodeId): (r: nat)
    ensures r <= B
  {
    B - LeadingZeros(Xor(a, b))
  }

  /** An id is exactly B bits wide. */
  lemma NodeIdWidth(id: NodeId)
    ensures |id| * 8 == B && B % 8 == 0
  {
  }

  /** Bit position `8 * i + k` lies in byte `i` under mask `k`. */
  lemma BitIndex(i: nat, k: nat)
    requires k < 8
    ensures (8 * i + k) / 8 == i && (8 * i + k) % 8 == k
  {
  }

  /** Bit `8 * i + k` is bit `k` of byte `i`. */
  lemma BitOfByte(x: seq<bv8>, i: nat, k: nat)
    requires i < |x| && k < 8
    ensures Bit(x, 8 * i + k) == MaskSet(x[i], k)
  {
  }

  /** The first `n` bits of `x` are clear. */
  predicate ZeroPrefix(x: seq<bv8>, n: nat)
  {
    n <= 8 * |x| && forall j :: 0 <= j < n ==> !Bit(x, j)
  }

  /** The run of zeros counted from `j` is all zeros and ends at a set bit or at the end. */
  lemma {:induction false} LeadingZerosFromBits(x: seq<bv8>, j: nat)
    requires j <= 8 * |x|
    ensures forall i :: j <= i < LeadingZerosFrom(x, j) ==> !Bit(x, i)
    ensures LeadingZerosFrom(x, j) < 8 * |x| ==> Bit(x, LeadingZerosFrom(x, j))
    decreases 8 * |x| - j
  {
    if j < 8 * |x| && !Bit(x, j) {
      LeadingZerosFromBits(x, j + 1);
    }
  }

  /** Leading zeros, bit by bit: every bit before the count is clear, the bit at the count is set. */
  lemma LeadingZerosBits(x: seq<bv8>)
    ensures forall i :: 0 <= i < LeadingZeros(x) ==> !Bit(x, i)
    ensures LeadingZeros(x) < 8 * |x| ==> Bit(x, LeadingZeros(x))
  {
    LeadingZerosFromBits(x, 0);
  }

  /** These two bit facts determine the count of leading zeros. */
  lemma LeadingZerosUnique(x: seq<bv8>, n: nat)
    requires ZeroPrefix(x, n)
    requires n < 8 * |x| ==> Bit(x, n)
    ensures LeadingZeros(x) == n
  {
    LeadingZerosBits(x);
  }

  /** Bit `j` of `a ^ b` is set exactly when bits `j` of `a` and `b` differ. */
  lemma BitXor(a: NodeId, b: NodeId, j: nat)
    requires j < B
    ensures Bit(Xor(a, b), j) == (Bit(a, j) != Bit(b, j))
  {
  }

  /** A byte whose eight masked bits are all clear is zero. */
  lemma ByteZero(u: bv8)
    requires forall k :: 0 <= k < 8 ==> !MaskSet(u, k)
    ensures u == 0
  {
    assert !MaskSet(u, 0) && !MaskSet(u, 1) && !MaskSet(u, 2) && !MaskSet(u, 3);
    assert !MaskSet(u, 4) && !MaskSet(u, 5) && !MaskSet(u, 6) && !MaskSet(u, 7);
  }

  /** When every byte is zero, every bit is a leading zero. */
  lemma LeadingZerosAllZero(x: seq<bv8>)
    requires forall m :: 0 <= m < |x| ==> x[m] == 0
    ensures LeadingZeros(x) == 8 * |x|
  {
    forall j | 0 <= j < 8 * |x|
      ensures !Bit(x, j)
    {
      BitOfByte(x, j / 8, j % 8);
    }
    LeadingZerosUnique(x, 8 * |x|);
  }

  /**
    The byte-and-mask view of the first set bit: when the bytes before `i`
    are zero, the masks before `k` find nothing in byte `i` and mask `k`
    finds a bit, there are exactly `8 * i + k` leading zeros.
   */
  lemma LeadingZerosFirstSetBit(x: seq<bv8>, i: nat, k: nat)
    requires i < |x| && k < 8
    requires forall m :: 0 <= m < i ==> x[m] == 0
    requires forall q :: 0 <= q < k ==> !MaskSet(x[i], q)
    requires MaskSet(x[i], k)
    ensures LeadingZeros(x) == 8 * i + k
  {
    forall j | 0 <= j < 8 * i + k
      ensures !Bit(x, j)
    {
      BitOfByte(x, j / 8, j % 8);
      if j / 8 == i {
        BitIndex(i, j % 8);
      }
    }
    BitOfByte(x, i, k);
    LeadingZerosUnique(x, 8 * i + k);
  }

  /** A sequence of bytes with no set bit is all zero bytes. */
  lemma NoBitsMeansZero(x: seq<bv8>)
    requires forall j :: 0 <= j < 8 * |x| ==> !Bit(x, j)
    ensures forall i :: 0 <= i < |x| ==> x[i] == 0
  {
    forall i | 0 <= i < |x|
      ensures x[i] == 0
    {
      forall k | 0 <= k < 8
        ensures !MaskSet(x[i], k)
      {
        BitIndex(i, k);
        assert !Bit(x, 8 * i + k);
      }
      ByteZero(x[i]);
    }
  }

  /**
    The distance is the 1-based position, counted from the least significant
    end, of the highest bit in which the ids differ: all bits above it agree,
    and that bit differs (when the distance is not 0).
   */
  lemma DistanceIsHighestDifferingBit(a: NodeId, b: NodeId)
    ensures forall j :: 0 <= j < B - Distance(a, b) ==> Bit(a, j) == Bit(b, j)
    ensures Distance(a, b) > 0 ==> Bit(a, B - Distance(a, b)) != Bit(b, B - Distance(a, b))
  {
    var x := Xor(a, b);
    LeadingZerosBits(x);
    forall j | 0 <= j < B - Distance(a, b)
      ensures Bit(a, j) == Bit(b, j)
    {
      BitXor(a, b, j);
    }
    if Distance(a, b) > 0 {
      BitXor(a, b, B - Distance(a, b));
    }
  }

  /** Distance zero means equal ids, and only equal ids are at distance zero. */
  lemma DistanceZeroIff(a: NodeId, b: NodeId)
    ensures Distance(a, b) == 0 <==> a == b
  {
    var x := Xor(a, b);
    if Distance(a, b) == 0 {
      LeadingZerosBits(x);
      NoBitsMeansZero(x);
      forall i | 0 <= i < BYTES_SIZE
        ensures a[i] == b[i]
      {
        assert a[i] ^ b[i] == x[i] == 0;
      }
    }
    if a == b {
      forall i | 0 <= i < BYTES_SIZE
        ensures x[i] == 0
      {
      }
      LeadingZerosUnique(x, B);
    }
  }

  /** Every id is at distance 0 from itself. */
  lemma DistanceSelf(a: NodeId)
    ensures Distance(a, a) == 0
  {
    DistanceZeroIff(a, a);
  }

  /** The metric is symmetric: its only input is `a ^ b`. */
  lemma DistanceSymmetric(a: NodeId, b: NodeId)
    ensures Distance(a, b) == Distance(b, a)
  {
    assert Xor(a, b) == Xor(b, a);
  }

  /** The XOR metric is an ultrametric. */
  lemma DistanceUltrametric(a: NodeId, b: NodeId, c: NodeId)
    ensures Distance(a, b) <= Distance(a, c) || Distance(a, b) <= Distance(c, b)
  {
    DistanceIsHighestDifferingBit(a, b);
    DistanceIsHighestDifferingBit(a, c);
    DistanceIsHighestDifferingBit(c, b);
  }

  /** Ids that differ only in the least significant bit are at distance 1. */
  lemma DistanceLeastSignificantBit()
    ensures Distance(ZERO_ID, ZERO_ID[BYTES_SIZE - 1 := 0x01]) == 1
  {
    var lsb: NodeId := ZERO_ID[BYTES_SIZE - 1 := 0x01];
    var x := Xor(ZERO_ID, lsb);
    assert x == lsb;
    forall j | 0 <= j < B - 1
      ensures !Bit(x, j)
    {
      var i, k := j / 8, j % 8;
      BitIndex(i, k);
      if i == BYTES_SIZE - 1 {
        assert k < 7;
      }
    }
    BitIndex(BYTES_SIZE - 1, 7);
    LeadingZerosUnique(x, B - 1);
  }

  /** Ids that differ in the most significant bit are at distance B. */
  lemma DistanceMostSignificantBit()
    ensures Distance(ZERO_ID, ZERO_ID[0 := 0x80]) == B
  {
  }
}
