/** The streaming SHA-1 of ds4_kvstore.c against the definition in section 6.1.2 of
    FIPS 180-4. */
module Sha1 {
  import opened ShaBlocks

  datatype Hash = Hash(a: bv32, b: bv32, c: bv32, d: bv32, e: bv32)

  // ------------------------------------------------------------------------------
  // Definition
  // ------------------------------------------------------------------------------

  const INIT := Hash(0x67452301, 0xefcdab89, 0x98badcfe, 0x10325476, 0xc3d2e1f0)

  function RotL(v: bv32, n: nat): bv32
    requires 0 < n < 32
  {
    (v << n) | (v >> (32 - n))
  }

  function Ch(x: bv32, y: bv32, z: bv32): bv32 {
    (x & y) ^ (!x & z)
  }

  function Parity(x: bv32, y: bv32, z: bv32): bv32 {
    x ^ y ^ z
  }

  function Maj(x: bv32, y: bv32, z: bv32): bv32 {
    (x & y) ^ (x & z) ^ (y & z)
  }

  function F(t: nat, x: bv32, y: bv32, z: bv32): bv32 {
    if t < 20 then Ch(x, y, z) else if t < 40 then Parity(x, y, z) else if t < 60 then Maj(x, y, z) else Parity(x, y, z)
  }

  function K(t: nat): bv32 {
    if t < 20 then 0x5a827999 else if t < 40 then 0x6ed9eba1 else if t < 60 then 0x8f1bbcdc else 0xca62c1d6
  }

  /** Word `i` of a block, most significant byte first. */
  function Word(block: seq<bv8>, i: nat): bv32
    requires |block| == 64 && i < 16
  {
    ((block[4 * i] as bv32) << 24) | ((block[4 * i + 1] as bv32) << 16) | ((block[4 * i + 2] as bv32) << 8) |
    (block[4 * i + 3] as bv32)
  }

  /** The message schedule. */
  function W(block: seq<bv8>, t: nat): bv32
    requires |block| == 64
  {
    if t < 16 then Word(block, t) else Expand(W(block, t - 3), W(block, t - 8), W(block, t - 14), W(block, t - 16))
  }

  function Expand(p: bv32, q: bv32, r: bv32, s: bv32): bv32 {
    RotL(p ^ q ^ r ^ s, 1)
  }

  function Sum(a: bv32, f: bv32, e: bv32, k: bv32, w: bv32): bv32 {
    RotL(a, 5) + f + e + k + w
  }

  function Round(s: Hash, t: nat, w: bv32): Hash {
    Hash(Sum(s.a, F(t, s.b, s.c, s.d), s.e, K(t), w), s.a, RotL(s.b, 30), s.c, s.d)
  }

  function Rounds(block: seq<bv8>, s: Hash, t: nat): Hash
    requires |block| == 64
  {
    if t == 0 then s else Round(Rounds(block, s, t - 1), t - 1, W(block, t - 1))
  }

  function Compress(s: Hash, block: seq<bv8>): Hash
    requires |block| == 64
  {
    var r := Rounds(block, s, 80);
    Hash(Plus(s.a, r.a), Plus(s.b, r.b), Plus(s.c, r.c), Plus(s.d, r.d), Plus(s.e, r.e))
  }

  /** Addition modulo 2^32. */
  function Plus(a: bv32, b: bv32): bv32 {
    a + b
  }

  /** All whole blocks of a message, one after another. */
  function Blocks(s: Hash, m: seq<bv8>): Hash
    decreases |m|
  {
    if |m| < 64 then s else Blocks(Compress(s, m[..64]), m[64..])
  }

  function WordBytes(w: bv32): seq<bv8> {
    [(w >> 24) as bv8, ((w >> 16) & 0xff) as bv8, ((w >> 8) & 0xff) as bv8, (w & 0xff) as bv8]
  }

  function HashBytes(s: Hash): seq<bv8> {
    WordBytes(s.a) + WordBytes(s.b) + WordBytes(s.c) + WordBytes(s.d) + WordBytes(s.e)
  }

  /** The message digest. */
  function Digest(m: seq<bv8>): seq<bv8> {
    HashBytes(Blocks(INIT, Pad(m)))
  }

  lemma {:induction false} BlocksAppend(s: Hash, m: seq<bv8>, d: seq<bv8>)
    requires |m| % 64 == 0
    ensures Blocks(s, m + d) == Blocks(Blocks(s, m), d)
    decreases |m|
  {
    hide Compress;
    if m == [] {
      assert m + d == d;
    } else {
      assert (m + d)[..64] == m[..64] && (m + d)[64..] == m[64..] + d;
      BlocksAppend(Compress(s, m[..64]), m[64..], d);
    }
  }

  lemma OneBlock(s: Hash, block: seq<bv8>)
    requires |block| == 64
    ensures Blocks(s, block) == Compress(s, block)
  {
    hide Compress;
    assert block[..64] == block && block[64..] == [];
  }

  // ------------------------------------------------------------------------------
  // The round functions as the code writes them
  // ------------------------------------------------------------------------------

  function ChoiceByOr(x: bv32, y: bv32, z: bv32): bv32 {
    (x & y) | (!x & z)
  }

  function MajorityByOr(x: bv32, y: bv32, z: bv32): bv32 {
    (x & y) | (x & z) | (y & z)
  }

  lemma OrIsEnough(x: bv32, y: bv32, z: bv32)
    ensures ChoiceByOr(x, y, z) == Ch(x, y, z)
    ensures MajorityByOr(x, y, z) == Maj(x, y, z)
  {
    ChoiceBits(x, y, z);
    MajorityBits(x, y, z);
  }

  lemma ChoiceBits(x: bv32, y: bv32, z: bv32)
    ensures (x & y) | (!x & z) == (x & y) ^ (!x & z)
  {
  }

  lemma MajorityBits(x: bv32, y: bv32, z: bv32)
    ensures (x & y) | (x & z) | (y & z) == (x & y) ^ (x & z) ^ (y & z)
  {
  }

  lemma NoMessage()
    ensures Blocks(INIT, Whole([])) == INIT && Left([]) == []
  {
    hide Compress;
  }

  // ------------------------------------------------------------------------------
  // The streaming context
  // ------------------------------------------------------------------------------

  class Context {
    const h: array<bv32>
    const block: array<bv8>
    var bytes: nat
    var used: nat

    ghost predicate Valid()
      reads this`used
    {
      h.Length == 5 && block.Length == 64 && used < 64
    }

    function State(): Hash
      reads h
      requires h.Length == 5
    {
      Hash(h[0], h[1], h[2], h[3], h[4])
    }

    /** The context stands for the message `m`: whole blocks are folded into the state, and the
        rest waits in the block buffer. */
    ghost predicate Holds(m: seq<bv8>)
      reads this, h, block
    {
      Fed(m) && bytes == |m| % TWO_64
    }

    ghost predicate Fed(m: seq<bv8>)
      reads this`used, h, block
    {
      && Valid()
      && State() == Blocks(INIT, Whole(m))
      && used == |Left(m)| && block[..used] == Left(m)
    }

    constructor ()
      ensures Holds([]) && fresh(h) && fresh(block)
    {
      h := new bv32[][0x67452301, 0xefcdab89, 0x98badcfe, 0x10325476, 0xc3d2e1f0];
      block := new bv8[64];
      bytes := 0;
      used := 0;
      new;
      hide Blocks, Whole, Left;
      NoMessage();
    }

    /** Spread the block over the 80 words of the message schedule. */
    method Schedule() returns (w: array<bv32>)
      requires block.Length == 64
      ensures fresh(w) && w.Length == 80 && forall j | 0 <= j < 80 :: w[j] == W(block[..], j)
    {
      hide W, Word, Expand;
      w := new bv32[80];
      for i := 0 to 16
        invariant forall j | 0 <= j < i :: w[j] == W(block[..], j)
      {
        w[i] := Word(block[..], i);
        FirstWords(block[..], i);
      }
      for i := 16 to 80
        invariant forall j | 0 <= j < i :: w[j] == W(block[..], j)
      {
        w[i] := Expand(w[i - 3], w[i - 8], w[i - 14], w[i - 16]);
        LaterWords(block[..], i);
      }
    }

    /** Fold one block into the state. */
    method Transform()
      requires h.Length == 5 && block.Length == 64
      modifies h
      ensures State() == Compress(old(State()), block[..])
    {
      hide W, Rounds, Word, RotL, Blocks, Expand, Sum, Plus, F, K;
      ghost var m := block[..];
      var w := Schedule();
      var a, b, cc, d, e := h[0], h[1], h[2], h[3], h[4];
      NoRounds(m, State());
      for i := 0 to 80
        invariant forall j | 0 <= j < 80 :: w[j] == W(m, j)
        invariant State() == old(State()) && block[..] == m
        invariant Hash(a, b, cc, d, e) == Rounds(m, old(State()), i)
      {
        NextRound(m, old(State()), i);
        var f, k := FAndK(i, b, cc, d);
        var tmp := Sum(a, f, e, k, w[i]);
        e := d;
        d := cc;
        cc := RotL(b, 30);
        b := a;
        a := tmp;
      }
      h[0] := Plus(h[0], a);
      h[1] := Plus(h[1], b);
      h[2] := Plus(h[2], cc);
      h[3] := Plus(h[3], d);
      h[4] := Plus(h[4], e);
    }

    /** The round's function and constant. */
    method FAndK(i: nat, b: bv32, cc: bv32, d: bv32) returns (f: bv32, k: bv32)
      ensures f == F(i, b, cc, d) && k == K(i)
    {
      hide Ch, Maj, Parity, ChoiceByOr, MajorityByOr;
      OrIsEnough(b, cc, d);
      if i < 20 {
        f := ChoiceByOr(b, cc, d);
        k := 0x5a827999;
      } else if i < 40 {
        f := Parity(b, cc, d);
        k := 0x6ed9eba1;
      } else if i < 60 {
        f := MajorityByOr(b, cc, d);
        k := 0x8f1bbcdc;
      } else {
        f := Parity(b, cc, d);
        k := 0xca62c1d6;
      }
    }

    /** Take in more of the message. */
    method Update(data: seq<bv8>, ghost m: seq<bv8>)
      requires Holds(m)
      modifies this`bytes, this`used, h, block
      ensures Holds(m + data)
    {
      hide Fed;
      BytesAdd(|m|, |data|);
      bytes := (bytes + |data|) % TWO_64;
      var p := 0;
      assert m + data[..0] == m;
      while p < |data|
        invariant 0 <= p <= |data| && Fed(m + data[..p]) && bytes == (|m| + |data|) % TWO_64
      {
        FedIsValid(m + data[..p]);
        var n := 64 - used;
        if |data| - p < n {
          n := |data| - p;
        }
        Feed(data[p..p + n], m + data[..p]);
        assert m + data[..p] + data[p..p + n] == m + data[..p + n];
        p := p + n;
      }
      assert m + data[..p] == m + data;
    }

    lemma FedIsValid(m: seq<bv8>)
      requires Fed(m)
      ensures Valid()
    {
    }

    /** Take in bytes that at most complete the current block. */
    method Feed(d: seq<bv8>, ghost before: seq<bv8>)
      requires Fed(before) && used + |d| <= 64
      modifies this`used, h, block
      ensures Fed(before + d)
    {
      hide Blocks, Whole, Left, Compress;
      CopyIn(d, before);
      if used + |d| == 64 {
        GrowsWhole(before, d);
        assert block[..] == Left(before) + d;
        Transform();
        Fold(Whole(before), Left(before) + d);
        used := 0;
      } else {
        GrowsWithin(before, d);
        used := used + |d|;
      }
    }

    /** Copy bytes behind those already in the block. */
    method CopyIn(d: seq<bv8>, ghost before: seq<bv8>)
      requires Valid() && used + |d| <= 64 && block[..used] == Left(before)
      modifies block
      ensures block[..used + |d|] == Left(before) + d
    {
      hide Left;
      for j := 0 to |d|
        invariant block[..used + j] == Left(before) + d[..j]
      {
        block[used + j] := d[j];
        assert d[..j + 1] == d[..j] + [d[j]];
      }
      assert d[..|d|] == d;
    }

    /** Pad the message and give the digest. */
    method Final(ghost m: seq<bv8>) returns (out: seq<bv8>)
      requires Holds(m) && |m| < 0x2000_0000_0000_0000
      modifies this`bytes, this`used, h, block
      ensures out == Digest(m)
    {
      hide Blocks, LengthBytes, HashBytes, ZeroCount, Zeros, Whole, Left, Compress;
      var bits := bytes * 8 % TWO_64;
      BitCount(|m|);
      ghost var m1 := m + [0x80];
      Update([0x80], m);
      ghost var zeros := 0;
      NoZeros(m);
      while used != 56
        invariant zeros <= ZeroCount(|m|) && Holds(m1 + Zeros(zeros))
        decreases ZeroCount(|m|) - zeros
      {
        OneMoreZero(m, zeros);
        Update([0], m1 + Zeros(zeros));
        zeros := zeros + 1;
      }
      OneMoreZero(m, zeros);
      Update(LengthBytes(bits), m1 + Zeros(zeros));
      out := HashBytes(State());
    }
  }

  /** However a message is cut into updates, the digest is that of the whole message. */
  method Streamed(parts: seq<seq<bv8>>) returns (out: seq<bv8>)
    requires |Joined(parts)| < 0x2000_0000_0000_0000
    ensures out == Digest(Joined(parts))
  {
    var c := new Context();
    assert Joined(parts[..0]) == [];
    for i := 0 to |parts|
      invariant c.Holds(Joined(parts[..i])) && fresh(c) && fresh(c.h) && fresh(c.block)
    {
      hide Digest;
      JoinOneMore(parts, i);
      c.Update(parts[i], Joined(parts[..i]));
    }
    assert parts[..|parts|] == parts;
    out := c.Final(Joined(parts));
  }

  // ------------------------------------------------------------------------------
  // Steps of the loops
  // ------------------------------------------------------------------------------

  lemma FirstWords(m: seq<bv8>, i: nat)
    requires |m| == 64 && i < 16
    ensures W(m, i) == Word(m, i)
  {
  }

  lemma LaterWords(m: seq<bv8>, i: nat)
    requires |m| == 64 && 16 <= i
    ensures W(m, i) == Expand(W(m, i - 3), W(m, i - 8), W(m, i - 14), W(m, i - 16))
  {
    hide Expand;
  }

  lemma NoRounds(m: seq<bv8>, s: Hash)
    requires |m| == 64
    ensures Rounds(m, s, 0) == s
  {
  }

  lemma NextRound(m: seq<bv8>, s: Hash, i: nat)
    requires |m| == 64
    ensures Rounds(m, s, i + 1) == Round(Rounds(m, s, i), i, W(m, i))
  {
    hide Round, W;
  }

  lemma Fold(whole: seq<bv8>, block: seq<bv8>)
    requires |whole| % 64 == 0 && |block| == 64
    ensures Blocks(INIT, whole + block) == Compress(Blocks(INIT, whole), block)
  {
    hide Compress;
    BlocksAppend(INIT, whole, block);
    OneBlock(Blocks(INIT, whole), block);
  }
}
