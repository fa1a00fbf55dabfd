/** The streaming SHA-256 of ds4_context_blob.c against the definition in section 6.2.2 of
    FIPS 180-4. */
module Sha256 {
  import opened ShaBlocks

  datatype Hash = Hash(a: bv32, b: bv32, c: bv32, d: bv32, e: bv32, f: bv32, g: bv32, h: bv32)

  // ------------------------------------------------------------------------------
  // Constants
  // ------------------------------------------------------------------------------

  /** The first 64 primes, eight to a row. */
  function Primes(row: nat): (r: seq<nat>)
    requires row < 8
    ensures |r| == 8
  {
    if row == 0 then [2, 3, 5, 7, 11, 13, 17, 19]
    else if row == 1 then [23, 29, 31, 37, 41, 43, 47, 53]
    else if row == 2 then [59, 61, 67, 71, 73, 79, 83, 89]
    else if row == 3 then [97, 101, 103, 107, 109, 113, 127, 131]
    else if row == 4 then [137, 139, 149, 151, 157, 163, 167, 173]
    else if row == 5 then [179, 181, 191, 193, 197, 199, 211, 223]
    else if row == 6 then [227, 229, 233, 239, 241, 251, 257, 263]
    else [269, 271, 277, 281, 283, 293, 307, 311]
  }

  /** The round constants, eight to a row. */
  function Constants(row: nat): (r: seq<bv32>)
    requires row < 8
    ensures |r| == 8
  {
    if row == 0 then
      [0x428a2f98, 0x71374491, 0xb5c0fbcf, 0xe9b5dba5, 0x3956c25b, 0x59f111f1, 0x923f82a4, 0xab1c5ed5]
    else if row == 1 then
      [0xd807aa98, 0x12835b01, 0x243185be, 0x550c7dc3, 0x72be5d74, 0x80deb1fe, 0x9bdc06a7, 0xc19bf174]
    else if row == 2 then
      [0xe49b69c1, 0xefbe4786, 0x0fc19dc6, 0x240ca1cc, 0x2de92c6f, 0x4a7484aa, 0x5cb0a9dc, 0x76f988da]
    else if row == 3 then
      [0x983e5152, 0xa831c66d, 0xb00327c8, 0xbf597fc7, 0xc6e00bf3, 0xd5a79147, 0x06ca6351, 0x14292967]
    else if row == 4 then
      [0x27b70a85, 0x2e1b2138, 0x4d2c6dfc, 0x53380d13, 0x650a7354, 0x766a0abb, 0x81c2c92e, 0x92722c85]
    else if row == 5 then
      [0xa2bfe8a1, 0xa81a664b, 0xc24b8b70, 0xc76c51a3, 0xd192e819, 0xd6990624, 0xf40e3585, 0x106aa070]
    else if row == 6 then
      [0x19a4c116, 0x1e376c08, 0x2748774c, 0x34b0bcb5, 0x391c0cb3, 0x4ed8aa4a, 0x5b9cca4f, 0x682e6ff3]
    else
      [0x748f82ee, 0x78a5636f, 0x84c87814, 0x8cc70208, 0x90befffa, 0xa4506ceb, 0xbef9a3f7, 0xc67178f2]
  }

  const INITIAL: seq<bv32> := [
    0x6a09e667, 0xbb67ae85, 0x3c6ef372, 0xa54ff53a, 0x510e527f, 0x9b05688c, 0x1f83d9ab, 0x5be0cd19]

  const TWO_32: nat := 0x1_0000_0000

  ghost predicate IsCubeRoot(p: nat, x: nat) {
    x * x * x <= p * TWO_32 * TWO_32 * TWO_32 < (x + 1) * (x + 1) * (x + 1)
  }

  ghost predicate IsSquareRoot(p: nat, x: nat) {
    x * x <= p * TWO_32 * TWO_32 < (x + 1) * (x + 1)
  }

  /** `k` holds the first 32 bits of the fraction of the cube root of `p`. */
  ghost predicate CubeRootBits(p: nat, k: nat) {
    k < TWO_32 && exists x: nat :: IsCubeRoot(p, x) && x % TWO_32 == k
  }

  ghost predicate SquareRootBits(p: nat, k: nat) {
    k < TWO_32 && exists x: nat :: IsSquareRoot(p, x) && x % TWO_32 == k
  }

  lemma CubeRoot(p: nat, whole: nat, k: nat)
    requires k < TWO_32 && IsCubeRoot(p, whole * TWO_32 + k)
    ensures CubeRootBits(p, k)
  {
    assert (whole * TWO_32 + k) % TWO_32 == k;
  }

  lemma SquareRoot(p: nat, whole: nat, k: nat)
    requires k < TWO_32 && IsSquareRoot(p, whole * TWO_32 + k)
    ensures SquareRootBits(p, k)
  {
    assert (whole * TWO_32 + k) % TWO_32 == k;
  }

  /** Where the numbers come from (sections 4.2.2 and 5.3.3). */
  lemma ConstantsAreRoots(row: nat, i: nat)
    requires row < 8 && i < 8
    ensures CubeRootBits(Primes(row)[i], Constants(row)[i] as nat)
    ensures SquareRootBits(Primes(0)[i], INITIAL[i] as nat)
  {
    InitialsAreRoots(i);
    if row == 0 { Row0(i); }
    else if row == 1 { Row1(i); }
    else if row == 2 { Row2(i); }
    else if row == 3 { Row3(i); }
    else if row == 4 { Row4(i); }
    else if row == 5 { Row5(i); }
    else if row == 6 { Row6(i); }
    else if row == 7 { Row7(i); }
  }

  lemma InitialsAreRoots(i: nat)
    requires i < 8
    ensures SquareRootBits(Primes(0)[i], INITIAL[i] as nat)
  {
    hide SquareRootBits;
    SquareRoot(2, 1, 0x6a09e667);
    SquareRoot(3, 1, 0xbb67ae85);
    SquareRoot(5, 2, 0x3c6ef372);
    SquareRoot(7, 2, 0xa54ff53a);
    SquareRoot(11, 3, 0x510e527f);
    SquareRoot(13, 3, 0x9b05688c);
    SquareRoot(17, 4, 0x1f83d9ab);
    SquareRoot(19, 4, 0x5be0cd19);
  }

  lemma Row0(i: nat)
    requires i < 8
    ensures CubeRootBits(Primes(0)[i], Constants(0)[i] as nat)
  {
    hide CubeRootBits;
    CubeRoot(2, 1, 0x428a2f98);
    CubeRoot(3, 1, 0x71374491);
    CubeRoot(5, 1, 0xb5c0fbcf);
    CubeRoot(7, 1, 0xe9b5dba5);
    CubeRoot(11, 2, 0x3956c25b);
    CubeRoot(13, 2, 0x59f111f1);
    CubeRoot(17, 2, 0x923f82a4);
    CubeRoot(19, 2, 0xab1c5ed5);
  }

  lemma Row1(i: nat)
    requires i < 8
    ensures CubeRootBits(Primes(1)[i], Constants(1)[i] as nat)
  {
    hide CubeRootBits;
    CubeRoot(23, 2, 0xd807aa98);
    CubeRoot(29, 3, 0x12835b01);
    CubeRoot(31, 3, 0x243185be);
    CubeRoot(37, 3, 0x550c7dc3);
    CubeRoot(41, 3, 0x72be5d74);
    CubeRoot(43, 3, 0x80deb1fe);
    CubeRoot(47, 3, 0x9bdc06a7);
    CubeRoot(53, 3, 0xc19bf174);
  }

  lemma Row2(i: nat)
    requires i < 8
    ensures CubeRootBits(Primes(2)[i], Constants(2)[i] as nat)
  {
    hide CubeRootBits;
    CubeRoot(59, 3, 0xe49b69c1);
    CubeRoot(61, 3, 0xefbe4786);
    CubeRoot(67, 4, 0x0fc19dc6);
    CubeRoot(71, 4, 0x240ca1cc);
    CubeRoot(73, 4, 0x2de92c6f);
    CubeRoot(79, 4, 0x4a7484aa);
    CubeRoot(83, 4, 0x5cb0a9dc);
    CubeRoot(89, 4, 0x76f988da);
  }

  lemma Row3(i: nat)
    requires i < 8
    ensures CubeRootBits(Primes(3)[i], Constants(3)[i] as nat)
  {
    hide CubeRootBits;
    CubeRoot(97, 4, 0x983e5152);
    CubeRoot(101, 4, 0xa831c66d);
    CubeRoot(103, 4, 0xb00327c8);
    CubeRoot(107, 4, 0xbf597fc7);
    CubeRoot(109, 4, 0xc6e00bf3);
    CubeRoot(113, 4, 0xd5a79147);
    CubeRoot(127, 5, 0x06ca6351);
    CubeRoot(131, 5, 0x14292967);
  }

  lemma Row4(i: nat)
    requires i < 8
    ensures CubeRootBits(Primes(4)[i], Constants(4)[i] as nat)
  {
    hide CubeRootBits;
    CubeRoot(137, 5, 0x27b70a85);
    CubeRoot(139, 5, 0x2e1b2138);
    CubeRoot(149, 5, 0x4d2c6dfc);
    CubeRoot(151, 5, 0x53380d13);
    CubeRoot(157, 5, 0x650a7354);
    CubeRoot(163, 5, 0x766a0abb);
    CubeRoot(167, 5, 0x81c2c92e);
    CubeRoot(173, 5, 0x92722c85);
  }

  lemma Row5(i: nat)
    requires i < 8
    ensures CubeRootBits(Primes(5)[i], Constants(5)[i] as nat)
  {
    hide CubeRootBits;
    CubeRoot(179, 5, 0xa2bfe8a1);
    CubeRoot(181, 5, 0xa81a664b);
    CubeRoot(191, 5, 0xc24b8b70);
    CubeRoot(193, 5, 0xc76c51a3);
    CubeRoot(197, 5, 0xd192e819);
    CubeRoot(199, 5, 0xd6990624);
    CubeRoot(211, 5, 0xf40e3585);
    CubeRoot(223, 6, 0x106aa070);
  }

  lemma Row6(i: nat)
    requires i < 8
    ensures CubeRootBits(Primes(6)[i], Constants(6)[i] as nat)
  {
    hide CubeRootBits;
    CubeRoot(227, 6, 0x19a4c116);
    CubeRoot(229, 6, 0x1e376c08);
    CubeRoot(233, 6, 0x2748774c);
    CubeRoot(239, 6, 0x34b0bcb5);
    CubeRoot(241, 6, 0x391c0cb3);
    CubeRoot(251, 6, 0x4ed8aa4a);
    CubeRoot(257, 6, 0x5b9cca4f);
    CubeRoot(263, 6, 0x682e6ff3);
  }

  lemma Row7(i: nat)
    requires i < 8
    ensures CubeRootBits(Primes(7)[i], Constants(7)[i] as nat)
  {
    hide CubeRootBits;
    CubeRoot(269, 6, 0x748f82ee);
    CubeRoot(271, 6, 0x78a5636f);
    CubeRoot(277, 6, 0x84c87814);
    CubeRoot(281, 6, 0x8cc70208);
    CubeRoot(283, 6, 0x90befffa);
    CubeRoot(293, 6, 0xa4506ceb);
    CubeRoot(307, 6, 0xbef9a3f7);
    CubeRoot(311, 6, 0xc67178f2);
  }

  // ------------------------------------------------------------------------------
  // Definition
  // ------------------------------------------------------------------------------

  const INIT := Hash(INITIAL[0], INITIAL[1], INITIAL[2], INITIAL[3], INITIAL[4], INITIAL[5], INITIAL[6], INITIAL[7])

  function K(t: nat): bv32
    requires t < 64
  {
    Constants(t / 8)[t % 8]
  }

  function RotR(v: bv32, n: nat): bv32
    requires 0 < n < 32
  {
    (v >> n) | (v << (32 - n))
  }

  function Ch(x: bv32, y: bv32, z: bv32): bv32 {
    (x & y) ^ (!x & z)
  }

  function Maj(x: bv32, y: bv32, z: bv32): bv32 {
    (x & y) ^ (x & z) ^ (y & z)
  }

  function BigSigma0(x: bv32): bv32 {
    RotR(x, 2) ^ RotR(x, 13) ^ RotR(x, 22)
  }

  function BigSigma1(x: bv32): bv32 {
    RotR(x, 6) ^ RotR(x, 11) ^ RotR(x, 25)
  }

  function SmallSigma0(x: bv32): bv32 {
    RotR(x, 7) ^ RotR(x, 18) ^ (x >> 3)
  }

  function SmallSigma1(x: bv32): bv32 {
    RotR(x, 17) ^ RotR(x, 19) ^ (x >> 10)
  }

  /** Addition modulo 2^32. */
  function Plus(a: bv32, b: bv32): bv32 {
    a + b
  }

  /** Word `i` of a block, most significant byte first. */
  function Word(block: seq<bv8>, i: nat): bv32
    requires |block| == 64 && i < 16
  {
    ((block[4 * i] as bv32) << 24) | ((block[4 * i + 1] as bv32) << 16) | ((block[4 * i + 2] as bv32) << 8) |
    (block[4 * i + 3] as bv32)
  }

  /** The message schedule. */
  function W(block: seq<bv8>, t: nat): bv32
    requires |block| == 64
  {
    if t < 16 then Word(block, t) else Expand(W(block, t - 2), W(block, t - 7), W(block, t - 15), W(block, t - 16))
  }

  function Expand(two: bv32, seven: bv32, fifteen: bv32, sixteen: bv32): bv32 {
    Plus(Plus(Plus(SmallSigma1(two), seven), SmallSigma0(fifteen)), sixteen)
  }

  function Round(s: Hash, k: bv32, w: bv32): Hash {
    var t1 := Plus(Plus(Plus(Plus(s.h, BigSigma1(s.e)), Ch(s.e, s.f, s.g)), k), w);
    var t2 := Plus(BigSigma0(s.a), Maj(s.a, s.b, s.c));
    Hash(Plus(t1, t2), s.a, s.b, s.c, Plus(s.d, t1), s.e, s.f, s.g)
  }

  function Rounds(block: seq<bv8>, s: Hash, t: nat): Hash
    requires |block| == 64 && t <= 64
  {
    if t == 0 then s else Round(Rounds(block, s, t - 1), K(t - 1), W(block, t - 1))
  }

  function Compress(s: Hash, block: seq<bv8>): Hash
    requires |block| == 64
  {
    var r := Rounds(block, s, 64);
    Hash(Plus(s.a, r.a), Plus(s.b, r.b), Plus(s.c, r.c), Plus(s.d, r.d),
         Plus(s.e, r.e), Plus(s.f, r.f), Plus(s.g, r.g), Plus(s.h, r.h))
  }

  /** All whole blocks of a message, one after another. */
  function Blocks(s: Hash, m: seq<bv8>): Hash
    decreases |m|
  {
    if |m| < 64 then s else Blocks(Compress(s, m[..64]), m[64..])
  }

  function WordBytes(w: bv32): seq<bv8> {
    [(w >> 24) as bv8, ((w >> 16) & 0xff) as bv8, ((w >> 8) & 0xff) as bv8, (w & 0xff) as bv8]
  }

  function HashBytes(s: Hash): seq<bv8> {
    WordBytes(s.a) + WordBytes(s.b) + WordBytes(s.c) + WordBytes(s.d) +
    WordBytes(s.e) + WordBytes(s.f) + WordBytes(s.g) + WordBytes(s.h)
  }

  /** The message digest. */
  function Digest(m: seq<bv8>): seq<bv8> {
    HashBytes(Blocks(INIT, Pad(m)))
  }

  lemma {:induction false} BlocksAppend(s: Hash, m: seq<bv8>, d: seq<bv8>)
    requires |m| % 64 == 0
    ensures Blocks(s, m + d) == Blocks(Blocks(s, m), d)
    decreases |m|
  {
    hide Compress;
    if m == [] {
      assert m + d == d;
    } else {
      assert (m + d)[..64] == m[..64] && (m + d)[64..] == m[64..] + d;
      BlocksAppend(Compress(s, m[..64]), m[64..], d);
    }
  }

  lemma Fold(whole: seq<bv8>, block: seq<bv8>)
    requires |whole| % 64 == 0 && |block| == 64
    ensures Blocks(INIT, whole + block) == Compress(Blocks(INIT, whole), block)
  {
    hide Compress;
    BlocksAppend(INIT, whole, block);
    assert block[..64] == block && block[64..] == [];
  }

  lemma NoMessage()
    ensures Blocks(INIT, Whole([])) == INIT && Left([]) == []
  {
    hide Compress;
  }

  // ------------------------------------------------------------------------------
  // The streaming context
  // ------------------------------------------------------------------------------

  class Context {
    const h: array<bv32>
    const block: array<bv8>
    var bitLen: nat
    var blockLen: nat

    ghost predicate Valid()
      reads this`blockLen
    {
      h.Length == 8 && block.Length == 64 && blockLen < 64
    }

    function State(): Hash
      reads h
      requires h.Length == 8
    {
      Hash(h[0], h[1], h[2], h[3], h[4], h[5], h[6], h[7])
    }

    /** The context stands for the message `m`: whole blocks are folded into the state and
        counted, and the rest waits in the block buffer. */
    ghost predicate Holds(m: seq<bv8>)
      reads this, h, block
    {
      && Valid()
      && State() == Blocks(INIT, Whole(m))
      && blockLen == |Left(m)| && block[..blockLen] == Left(m)
      && bitLen == 8 * |Whole(m)| % TWO_64
    }

    constructor ()
      ensures Holds([]) && fresh(h) && fresh(block)
    {
      h := new bv32[][0x6a09e667, 0xbb67ae85, 0x3c6ef372, 0xa54ff53a, 0x510e527f, 0x9b05688c, 0x1f83d9ab, 0x5be0cd19];
      block := new bv8[64];
      bitLen := 0;
      blockLen := 0;
      new;
      hide Blocks, Whole, Left;
      NoMessage();
    }

    /** Spread the block over the 64 words of the message schedule. */
    method Schedule() returns (w: array<bv32>)
      requires block.Length == 64
      ensures fresh(w) && w.Length == 64 && forall j | 0 <= j < 64 :: w[j] == W(block[..], j)
    {
      hide W, Word, Expand;
      w := new bv32[64];
      for i := 0 to 16
        invariant forall j | 0 <= j < i :: w[j] == W(block[..], j)
      {
        w[i] := Word(block[..], i);
        FirstWords(block[..], i);
      }
      for i := 16 to 64
        invariant forall j | 0 <= j < i :: w[j] == W(block[..], j)
      {
        w[i] := Expand(w[i - 2], w[i - 7], w[i - 15], w[i - 16]);
        LaterWords(block[..], i);
      }
    }

    /** Fold one block into the state. */
    method Transform()
      requires h.Length == 8 && block.Length == 64
      modifies h
      ensures State() == Compress(old(State()), block[..])
    {
      hide W, Rounds, K, Blocks, Plus, BigSigma0, BigSigma1, Ch, Maj;
      ghost var m := block[..];
      var w := Schedule();
      var a, b, c, d, e, f, g, hh := h[0], h[1], h[2], h[3], h[4], h[5], h[6], h[7];
      NoRounds(m, State());
      for i := 0 to 64
        invariant forall j | 0 <= j < 64 :: w[j] == W(m, j)
        invariant State() == old(State()) && block[..] == m
        invariant Hash(a, b, c, d, e, f, g, hh) == Rounds(m, old(State()), i)
      {
        NextRound(m, old(State()), i);
        var s1 := BigSigma1(e);
        var ch := Ch(e, f, g);
        var temp1 := Plus(Plus(Plus(Plus(hh, s1), ch), K(i)), w[i]);
        var s0 := BigSigma0(a);
        var maj := Maj(a, b, c);
        var temp2 := Plus(s0, maj);
        hh := g;
        g := f;
        f := e;
        e := Plus(d, temp1);
        d := c;
        c := b;
        b := a;
        a := Plus(temp1, temp2);
      }
      h[0], h[1], h[2], h[3] := Plus(h[0], a), Plus(h[1], b), Plus(h[2], c), Plus(h[3], d);
      h[4], h[5], h[6], h[7] := Plus(h[4], e), Plus(h[5], f), Plus(h[6], g), Plus(h[7], hh);
    }

    /** Take in more of the message, byte by byte. */
    method Update(data: seq<bv8>, ghost m: seq<bv8>)
      requires Holds(m)
      modifies this`bitLen, this`blockLen, h, block
      ensures Holds(m + data)
    {
      hide Holds;
      assert m + data[..0] == m;
      for i := 0 to |data|
        invariant Holds(m + data[..i])
      {
        UpdateByte(data[i], m + data[..i]);
        assert m + data[..i] + [data[i]] == m + data[..i + 1];
      }
      assert m + data[..|data|] == m + data;
    }

    /** The body of the update loop. */
    method UpdateByte(x: bv8, ghost m: seq<bv8>)
      requires Holds(m)
      modifies this`bitLen, this`blockLen, h, block
      ensures Holds(m + [x])
    {
      hide Blocks, Whole, Left, Compress;
      block[blockLen] := x;
      blockLen := blockLen + 1;
      assert block[..blockLen] == Left(m) + [x];
      if blockLen == 64 {
        GrowsWhole(m, [x]);
        assert block[..] == Left(m) + [x];
        Transform();
        Fold(Whole(m), Left(m) + [x]);
        BitsAdd(8 * |Whole(m)|, 512);
        bitLen := (bitLen + 512) % TWO_64;
        blockLen := 0;
      } else {
        GrowsWithin(m, [x]);
      }
    }

    /** Fill the block with zeros from `i` up to `to`. */
    method ZeroFill(i: nat, to: nat)
      requires block.Length == 64 && i <= to <= 64
      modifies block
      ensures block[..to] == old(block[..i]) + Zeros(to - i)
    {
      for j := i to to
        invariant block[..j] == old(block[..i]) + Zeros(j - i)
      {
        block[j] := 0;
        assert Zeros(j - i) + [0] == Zeros(j - i + 1);
      }
    }

    /** Pad the message in place and give the digest. */
    method Final(ghost m: seq<bv8>) returns (out: seq<bv8>)
      requires Holds(m) && |m| < 0x2000_0000_0000_0000
      modifies this`bitLen, h, block
      ensures out == Digest(m)
    {
      hide INIT, Blocks, Whole, Left, Compress, HashBytes, LengthBytes, Zeros, Pad;
      var i := blockLen;
      block[i] := 0x80;
      i := i + 1;
      ghost var tail := Left(m) + [0x80];
      ghost var whole := Whole(m);
      assert block[..i] == tail;
      PaddedBlocks(m);
      if 56 < i {
        ZeroFill(i, 64);
        assert block[..] == tail + Zeros(64 - i);
        Transform();
        Fold(whole, tail + Zeros(64 - i));
        whole := whole + (tail + Zeros(64 - i));
        tail := [];
        i := 0;
        assert tail + Zeros(56) == Zeros(56);
      }
      assert Pad(m) == whole + (tail + Zeros(56 - i) + LengthBytes(8 * |m|));
      ZeroFill(i, 56);
      FinalBits(m);
      bitLen := (bitLen + blockLen * 8) % TWO_64;
      LastBlock(whole, tail + Zeros(56 - i));
      out := HashBytes(State());
    }

    /** The block that ends in the length field. */
    method LastBlock(ghost whole: seq<bv8>, ghost front: seq<bv8>)
      requires h.Length == 8 && block.Length == 64 && |whole| % 64 == 0
      requires State() == Blocks(INIT, whole) && block[..56] == front
      modifies h, block
      ensures State() == Blocks(INIT, whole + (front + LengthBytes(bitLen)))
    {
      hide INIT, Blocks, Compress, LengthBytes;
      PutLength(bitLen);
      assert block[..] == front + LengthBytes(bitLen);
      Transform();
      Fold(whole, front + LengthBytes(bitLen));
    }

    /** Write the bit count into the last eight bytes, most significant first. */
    method PutLength(bits: nat)
      requires block.Length == 64
      modifies block
      ensures block[..] == old(block[..56]) + LengthBytes(bits)
    {
      hide ByteOf;
      var i := 56;
      for j := 8 downto 0
        invariant i == 64 - j && block[..56] == old(block[..56])
        invariant forall k | 56 <= k < i :: block[k] == ByteOf(bits, 63 - k)
      {
        block[i] := ByteOf(bits, j);
        i := i + 1;
      }
      assert block[56..] == LengthBytes(bits);
      assert block[..] == block[..56] + block[56..];
    }
  }

  /** However a message is cut into updates, the digest is that of the whole message. */
  method Streamed(parts: seq<seq<bv8>>) returns (out: seq<bv8>)
    requires |Joined(parts)| < 0x2000_0000_0000_0000
    ensures out == Digest(Joined(parts))
  {
    var c := new Context();
    assert Joined(parts[..0]) == [];
    for i := 0 to |parts|
      invariant c.Holds(Joined(parts[..i])) && fresh(c) && fresh(c.h) && fresh(c.block)
    {
      hide Digest;
      JoinOneMore(parts, i);
      c.Update(parts[i], Joined(parts[..i]));
    }
    assert parts[..|parts|] == parts;
    out := c.Final(Joined(parts));
  }

  // ------------------------------------------------------------------------------
  // Steps of the loops
  // ------------------------------------------------------------------------------

  lemma FirstWords(m: seq<bv8>, i: nat)
    requires |m| == 64 && i < 16
    ensures W(m, i) == Word(m, i)
  {
  }

  lemma LaterWords(m: seq<bv8>, i: nat)
    requires |m| == 64 && 16 <= i
    ensures W(m, i) == Expand(W(m, i - 2), W(m, i - 7), W(m, i - 15), W(m, i - 16))
  {
    hide Expand;
  }

  lemma NoRounds(m: seq<bv8>, s: Hash)
    requires |m| == 64
    ensures Rounds(m, s, 0) == s
  {
  }

  lemma NextRound(m: seq<bv8>, s: Hash, i: nat)
    requires |m| == 64 && i < 64
    ensures Rounds(m, s, i + 1) == Round(Rounds(m, s, i), K(i), W(m, i))
  {
    hide Round, W, K;
  }

  lemma BitsAdd(n: nat, more: nat)
    ensures (n % TWO_64 + more) % TWO_64 == (n + more) % TWO_64
  {
  }

  /** The bit count is complete once the bytes still in the buffer are added. */
  lemma FinalBits(m: seq<bv8>)
    requires |m| < 0x2000_0000_0000_0000
    ensures (8 * |Whole(m)| % TWO_64 + |Left(m)| * 8) % TWO_64 == 8 * |m|
  {
  }

  /** The padded message in terms of the whole blocks and the rest: one more block when the
      length field still fits behind the 0x80 byte, two otherwise. */
  lemma PaddedBlocks(m: seq<bv8>)
    ensures var tail := Left(m) + [0x80];
            Pad(m) ==
            if |tail| <= 56 then Whole(m) + (tail + Zeros(56 - |tail|) + LengthBytes(8 * |m|))
            else Whole(m) + (tail + Zeros(64 - |tail|)) + (Zeros(56) + LengthBytes(8 * |m|))
  {
    hide LengthBytes;
    var tail := Left(m) + [0x80];
    assert m == Whole(m) + Left(m);
    if |tail| <= 56 {
      assert ZeroCount(|m|) == 56 - |tail|;
    } else {
      assert ZeroCount(|m|) == 64 - |tail| + 56;
      assert Zeros(64 - |tail|) + Zeros(56) == Zeros(ZeroCount(|m|));
    }
  }
}
