/** Messages, padding and blocks, common to SHA-1 and SHA-256 (sections 5.1.1 and 5.2.1 of
    FIPS 180-4). */
module ShaBlocks {

  const TWO_64: nat := 0x1_0000_0000_0000_0000

  /** Byte `i` from the right of a 64-bit number. */
  function ByteOf(n: nat, i: nat): bv8 {
    (n / Power256(i) % 0x100) as bv8
  }

  function Power256(i: nat): (p: nat)
    ensures 0 < p
  {
    if i == 0 then 1 else 0x100 * Power256(i - 1)
  }

  /** The message length in bits, as eight bytes, most significant first. */
  function LengthBytes(bits: nat): (r: seq<bv8>)
    ensures |r| == 8
  {
    seq(8, j requires 0 <= j < 8 => ByteOf(bits, 7 - j))
  }

  function Zeros(n: nat): (r: seq<bv8>)
    ensures |r| == n
  {
    seq(n, _ => 0)
  }

  /** How many zero bytes follow the 0x80 byte: the least number that makes the padded message
      a whole number of blocks. */
  function ZeroCount(len: nat): (k: nat)
    ensures k < 64 && (len + 1 + k + 8) % 64 == 0
  {
    (119 - len % 64) % 64
  }

  function Pad(m: seq<bv8>): (r: seq<bv8>)
    ensures |r| % 64 == 0 && m <= r
  {
    m + [0x80] + Zeros(ZeroCount(|m|)) + LengthBytes(8 * |m|)
  }

  /** The part of a message that makes whole blocks, and the bytes left over. */
  function Whole(m: seq<bv8>): (r: seq<bv8>)
    ensures |r| % 64 == 0 && |m| - |r| == |m| % 64
  {
    m[..|m| - |m| % 64]
  }

  function Left(m: seq<bv8>): (r: seq<bv8>)
    ensures |r| == |m| % 64
  {
    m[|m| - |m| % 64..]
  }

  /** Adding bytes that stay within the current block. */
  lemma GrowsWithin(m: seq<bv8>, d: seq<bv8>)
    requires |Left(m)| + |d| < 64
    ensures Whole(m + d) == Whole(m) && Left(m + d) == Left(m) + d
  {
    var w := |m| - |m| % 64;
    assert |m + d| % 64 == |m| % 64 + |d|;
    assert (m + d)[..w] == m[..w];
    assert (m + d)[w..] == m[w..] + d;
  }

  /** Adding the bytes that complete the current block. */
  lemma GrowsWhole(m: seq<bv8>, d: seq<bv8>)
    requires |Left(m)| + |d| == 64
    ensures Whole(m + d) == Whole(m) + (Left(m) + d) && Left(m + d) == []
  {
    var w := |m| - |m| % 64;
    assert |m + d| == w + 64;
    assert |m + d| % 64 == 0;
    assert (m + d)[..w + 64] == m[..w] + (m[w..] + d);
  }

  /** Below 2^61 bytes the bit count fits the 64-bit field. */
  lemma BitCount(len: nat)
    requires len < 0x2000_0000_0000_0000
    ensures len % TWO_64 * 8 % TWO_64 == 8 * len
  {
  }

  lemma NoZeros(m: seq<bv8>)
    ensures m + [0x80] + Zeros(0) == m + [0x80]
  {
  }

  /** The padding loop stops after exactly the zero bytes the definition asks for. */
  lemma OneMoreZero(m: seq<bv8>, zeros: nat)
    requires zeros <= ZeroCount(|m|)
    ensures var padded := m + [0x80] + Zeros(zeros);
            && (|Left(padded)| == 56 <==> zeros == ZeroCount(|m|))
            && padded + [0] == m + [0x80] + Zeros(zeros + 1)
            && (zeros == ZeroCount(|m|) ==>
                  padded + LengthBytes(8 * |m|) == Pad(m) && Whole(Pad(m)) == Pad(m))
  {
    hide LengthBytes;
    assert |m + [0x80] + Zeros(zeros)| == |m| + 1 + zeros;
    assert Pad(m)[..|Pad(m)|] == Pad(m);
  }

  lemma BytesAdd(len: nat, more: nat)
    ensures (len % TWO_64 + more) % TWO_64 == (len + more) % TWO_64
  {
  }

  // ------------------------------------------------------------------------------
  // Messages in parts
  // ------------------------------------------------------------------------------

  function Joined(parts: seq<seq<bv8>>): seq<bv8> {
    if parts == [] then [] else Joined(parts[..|parts| - 1]) + parts[|parts| - 1]
  }

  lemma JoinOneMore(parts: seq<seq<bv8>>, i: nat)
    requires i < |parts|
    ensures Joined(parts[..i + 1]) == Joined(parts[..i]) + parts[i]
  {
    assert parts[..i + 1][..i] == parts[..i];
  }

  // ------------------------------------------------------------------------------
  // The message of the published examples
  // ------------------------------------------------------------------------------

  /** "abc" */
  const ABC: seq<bv8> := [0x61, 0x62, 0x63]

  lemma PaddedAbc()
    ensures |Pad(ABC)| == 64 && Pad(ABC)[..3] == ABC && Pad(ABC)[3] == 0x80 && Pad(ABC)[63] == 0x18
    ensures forall j | 4 <= j < 63 :: Pad(ABC)[j] == 0
  {
    hide LengthBytes;
    LengthOfAbc();
  }

  lemma LengthOfAbc()
    ensures LengthBytes(24)[7] == 0x18 && forall j | 0 <= j < 7 :: LengthBytes(24)[j] == 0
  {
    hide ByteOf;
    forall j | 0 <= j < 7 ensures LengthBytes(24)[j] == 0 {
      HighByte(7 - j);
    }
    LowByte();
  }

  lemma LowByte()
    ensures ByteOf(24, 0) == 0x18
  {
  }

  lemma HighByte(i: nat)
    requires 0 < i
    ensures ByteOf(24, i) == 0
  {
    hide Power256;
    PowerIsLarge(i);
    NoQuotient(24, Power256(i));
  }

  lemma PowerIsLarge(i: nat)
    requires 0 < i
    ensures 0x100 <= Power256(i)
  {
  }

  lemma NoQuotient(n: nat, p: nat)
    requires n < p
    ensures n / p == 0
  {
  }
}
