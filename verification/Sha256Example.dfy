/** The example of SHA-256 published with FIPS 180-4: the definition gives the digest of "abc". */
module Sha256Example {
  import opened ShaBlocks
  import opened Sha256

  // ------------------------------------------------------------------------------
  // Rotations with their distances written out
  // ------------------------------------------------------------------------------

  function Xor3(x: bv32, y: bv32, z: bv32): bv32 {
    x ^ y ^ z
  }

  function Wide0(x: bv32): bv32 {
    ((x >> 2) | (x << 30)) ^ ((x >> 13) | (x << 19)) ^ ((x >> 22) | (x << 10))
  }

  lemma Wide0Rotates(x: bv32)
    ensures RotR(x, 2) == (x >> 2) | (x << 30) && RotR(x, 13) == (x >> 13) | (x << 19) && RotR(x, 22) == (x >> 22) | (x << 10)
  {
  }

  lemma Wide0IsXor(x: bv32)
    ensures BigSigma0(x) == Xor3(RotR(x, 2), RotR(x, 13), RotR(x, 22))
    ensures Wide0(x) == Xor3((x >> 2) | (x << 30), (x >> 13) | (x << 19), (x >> 22) | (x << 10))
  {
    hide RotR;
  }

  lemma Wide0Is(x: bv32)
    ensures BigSigma0(x) == Wide0(x)
  {
    hide Xor3, RotR, BigSigma0, Wide0;
    Wide0Rotates(x);
    Wide0IsXor(x);
  }

  function Wide1(x: bv32): bv32 {
    ((x >> 6) | (x << 26)) ^ ((x >> 11) | (x << 21)) ^ ((x >> 25) | (x << 7))
  }

  lemma Wide1Rotates(x: bv32)
    ensures RotR(x, 6) == (x >> 6) | (x << 26) && RotR(x, 11) == (x >> 11) | (x << 21) && RotR(x, 25) == (x >> 25) | (x << 7)
  {
  }

  lemma Wide1IsXor(x: bv32)
    ensures BigSigma1(x) == Xor3(RotR(x, 6), RotR(x, 11), RotR(x, 25))
    ensures Wide1(x) == Xor3((x >> 6) | (x << 26), (x >> 11) | (x << 21), (x >> 25) | (x << 7))
  {
    hide RotR;
  }

  lemma Wide1Is(x: bv32)
    ensures BigSigma1(x) == Wide1(x)
  {
    hide Xor3, RotR, BigSigma1, Wide1;
    Wide1Rotates(x);
    Wide1IsXor(x);
  }

  function Narrow0(x: bv32): bv32 {
    ((x >> 7) | (x << 25)) ^ ((x >> 18) | (x << 14)) ^ (x >> 3)
  }

  lemma Narrow0Rotates(x: bv32)
    ensures RotR(x, 7) == (x >> 7) | (x << 25) && RotR(x, 18) == (x >> 18) | (x << 14)
  {
  }

  lemma Narrow0IsXor(x: bv32)
    ensures SmallSigma0(x) == Xor3(RotR(x, 7), RotR(x, 18), x >> 3)
    ensures Narrow0(x) == Xor3((x >> 7) | (x << 25), (x >> 18) | (x << 14), x >> 3)
  {
    hide RotR;
  }

  lemma Narrow0Is(x: bv32)
    ensures SmallSigma0(x) == Narrow0(x)
  {
    hide Xor3, RotR, SmallSigma0, Narrow0;
    Narrow0Rotates(x);
    Narrow0IsXor(x);
  }

  function Narrow1(x: bv32): bv32 {
    ((x >> 17) | (x << 15)) ^ ((x >> 19) | (x << 13)) ^ (x >> 10)
  }

  lemma Narrow1Rotates(x: bv32)
    ensures RotR(x, 17) == (x >> 17) | (x << 15) && RotR(x, 19) == (x >> 19) | (x << 13)
  {
  }

  lemma Narrow1IsXor(x: bv32)
    ensures SmallSigma1(x) == Xor3(RotR(x, 17), RotR(x, 19), x >> 10)
    ensures Narrow1(x) == Xor3((x >> 17) | (x << 15), (x >> 19) | (x << 13), x >> 10)
  {
    hide RotR;
  }

  lemma Narrow1Is(x: bv32)
    ensures SmallSigma1(x) == Narrow1(x)
  {
    hide Xor3, RotR, SmallSigma1, Narrow1;
    Narrow1Rotates(x);
    Narrow1IsXor(x);
  }

  lemma Sigmas(x: bv32)
    ensures BigSigma0(x) == Wide0(x) && BigSigma1(x) == Wide1(x)
    ensures SmallSigma0(x) == Narrow0(x) && SmallSigma1(x) == Narrow1(x)
  {
    hide BigSigma0, BigSigma1, SmallSigma0, SmallSigma1, Wide0, Wide1, Narrow0, Narrow1;
    Wide0Is(x);
    Wide1Is(x);
    Narrow0Is(x);
    Narrow1Is(x);
  }

  // ------------------------------------------------------------------------------
  // Eight words and eight rounds at a time
  // ------------------------------------------------------------------------------

  ghost predicate WordsAre(m: seq<bv8>, t: nat, w: seq<bv32>)
    requires |m| == 64
  {
    |w| == 8 && forall j | 0 <= j < 8 :: W(m, t + j) == w[j]
  }

  function Stretch(two: bv32, seven: bv32, fifteen: bv32, sixteen: bv32): bv32 {
    Plus(Plus(Plus(Narrow1(two), seven), Narrow0(fifteen)), sixteen)
  }

  function NextWords(v: seq<bv32>, w: seq<bv32>): (x: seq<bv32>)
    requires |v| == |w| == 8
    ensures |x| == 8
  {
    var x0 := Stretch(w[6], w[1], v[1], v[0]);
    var x1 := Stretch(w[7], w[2], v[2], v[1]);
    var x2 := Stretch(x0, w[3], v[3], v[2]);
    var x3 := Stretch(x1, w[4], v[4], v[3]);
    var x4 := Stretch(x2, w[5], v[5], v[4]);
    var x5 := Stretch(x3, w[6], v[6], v[5]);
    [x0, x1, x2, x3, x4, x5, Stretch(x4, w[7], v[7], v[6]), Stretch(x5, x0, w[0], v[7])]
  }

  lemma NextWord(m: seq<bv8>, t: nat)
    requires |m| == 64
    ensures W(m, t + 16) == Stretch(W(m, t + 14), W(m, t + 9), W(m, t + 1), W(m, t))
  {
    hide W, Plus, SmallSigma0, SmallSigma1, Narrow0, Narrow1;
    LaterWords(m, t + 16);
    Sigmas(W(m, t + 14));
    Sigmas(W(m, t + 1));
  }

  lemma NextWordsAre(m: seq<bv8>, t: nat, v: seq<bv32>, w: seq<bv32>)
    requires |m| == 64 && WordsAre(m, t, v) && WordsAre(m, t + 8, w)
    ensures WordsAre(m, t + 16, NextWords(v, w))
  {
    hide W, Stretch;
    assert forall j | 0 <= j < 8 :: W(m, t + j) == v[j] && W(m, t + 8 + j) == w[j];
    NextWord(m, t);
    NextWord(m, t + 1);
    NextWord(m, t + 2);
    NextWord(m, t + 3);
    NextWord(m, t + 4);
    NextWord(m, t + 5);
    NextWord(m, t + 6);
    NextWord(m, t + 7);
  }

  /** A round with its rotations written out. */
  function Turn(s: Hash, k: bv32, w: bv32): Hash {
    var t1 := Plus(Plus(Plus(Plus(s.h, Wide1(s.e)), Ch(s.e, s.f, s.g)), k), w);
    Hash(Plus(t1, Plus(Wide0(s.a), Maj(s.a, s.b, s.c))), s.a, s.b, s.c, Plus(s.d, t1), s.e, s.f, s.g)
  }

  lemma RoundIsTurn(s: Hash, k: bv32, w: bv32)
    ensures Round(s, k, w) == Turn(s, k, w)
  {
    hide Plus, Ch, Maj, BigSigma0, BigSigma1, Wide0, Wide1;
    Sigmas(s.a);
    Sigmas(s.e);
  }

  function EightTurns(s: Hash, k: seq<bv32>, w: seq<bv32>): Hash
    requires |k| == |w| == 8
  {
    var u := Turn(Turn(Turn(Turn(s, k[0], w[0]), k[1], w[1]), k[2], w[2]), k[3], w[3]);
    Turn(Turn(Turn(Turn(u, k[4], w[4]), k[5], w[5]), k[6], w[6]), k[7], w[7])
  }

  lemma OneTurn(m: seq<bv8>, t: nat)
    requires |m| == 64 && t < 64
    ensures Rounds(m, INIT, t + 1) == Turn(Rounds(m, INIT, t), K(t), W(m, t))
  {
    hide W, Round, Turn, K;
    NextRound(m, INIT, t);
    RoundIsTurn(Rounds(m, INIT, t), K(t), W(m, t));
  }

  lemma EightRounds(m: seq<bv8>, r: nat, w: seq<bv32>)
    requires |m| == 64 && r < 8 && WordsAre(m, 8 * r, w)
    ensures Rounds(m, INIT, 8 * r + 8) == EightTurns(Rounds(m, INIT, 8 * r), Constants(r), w)
  {
    hide W, Turn, Rounds, Constants;
    var t := 8 * r;
    assert forall j | 0 <= j < 8 :: W(m, t + j) == w[j] && K(t + j) == Constants(r)[j];
    OneTurn(m, t);
    OneTurn(m, t + 1);
    OneTurn(m, t + 2);
    OneTurn(m, t + 3);
    OneTurn(m, t + 4);
    OneTurn(m, t + 5);
    OneTurn(m, t + 6);
    OneTurn(m, t + 7);
  }

  // ------------------------------------------------------------------------------
  // The numbers of the example
  // ------------------------------------------------------------------------------

  /** Eight words of the schedule to a row. */
  const Words0: seq<bv32> :=
    [0x61626380, 0x00000000, 0x00000000, 0x00000000, 0x00000000, 0x00000000, 0x00000000, 0x00000000]
  const Words1: seq<bv32> :=
    [0x00000000, 0x00000000, 0x00000000, 0x00000000, 0x00000000, 0x00000000, 0x00000000, 0x00000018]
  const Words2: seq<bv32> :=
    [0x61626380, 0x000f0000, 0x7da86405, 0x600003c6, 0x3e9d7b78, 0x0183fc00, 0x12dcbfdb, 0xe2e2c38e]
  const Words3: seq<bv32> :=
    [0xc8215c1a, 0xb73679a2, 0xe5bc3909, 0x32663c5b, 0x9d209d67, 0xec8726cb, 0x702138a4, 0xd3b7973b]
  const Words4: seq<bv32> :=
    [0x93f5997f, 0x3b68ba73, 0xaff4ffc1, 0xf10a5c62, 0x0a8b3996, 0x72af830a, 0x9409e33e, 0x24641522]
  const Words5: seq<bv32> :=
    [0x9f47bf94, 0xf0a64f5a, 0x3e246a79, 0x27333ba3, 0x0c4763f2, 0x840abf27, 0x7a290d5d, 0x065c43da]
  const Words6: seq<bv32> :=
    [0xfb3e89cb, 0xcc7617db, 0xb9e66c34, 0xa9993667, 0x84badedd, 0xc21462bc, 0x1487472c, 0xb20f7a99]
  const Words7: seq<bv32> :=
    [0xef57b9cd, 0xebe6b238, 0x9fe3095e, 0x78bc8d4b, 0xa43fcf15, 0x668b2ff8, 0xeeaba2cc, 0x12b1edeb]

  /** The state after every eight rounds. */
  const After0: Hash :=
    Hash(0x6a09e667, 0xbb67ae85, 0x3c6ef372, 0xa54ff53a, 0x510e527f, 0x9b05688c, 0x1f83d9ab, 0x5be0cd19)
  const After1: Hash :=
    Hash(0x85a07b5f, 0xe5030380, 0x2b4209f5, 0x04409a6a, 0x0c657a79, 0x9b27a401, 0x714260ad, 0x43ada245)
  const After2: Hash :=
    Hash(0xb0fa238e, 0xc0645fde, 0xd932eb16, 0x87912990, 0x07590dcd, 0x0b92f20c, 0x745a48de, 0x1e578218)
  const After3: Hash :=
    Hash(0xc5d53d8d, 0xa7a3623f, 0xc2606d6d, 0x9dc68b63, 0xaa47c347, 0x49f5114a, 0xe1257970, 0x8ada8930)
  const After4: Hash :=
    Hash(0x73b33bf5, 0xea992a22, 0xa0060b30, 0x363482c9, 0xba591112, 0x0109ab3a, 0xade79437, 0x6112a3b7)
  const After5: Hash :=
    Hash(0x79ea687a, 0x6dc57a8a, 0x34df1604, 0x41a65cb1, 0x1efbc0a0, 0xf0781bc8, 0xa507a53d, 0x0772a26b)
  const After6: Hash :=
    Hash(0x4172328d, 0xa14c14b0, 0x72ab4b91, 0x26628815, 0xfecf0bc6, 0xd57b94a9, 0xb7755da1, 0xa80f11f0)
  const After7: Hash :=
    Hash(0x38cc9913, 0x3ec45cdb, 0xf5702fdb, 0x101fd28f, 0x54cb266b, 0xe50e1b4f, 0x9f4787c3, 0x529e7d00)
  const After8: Hash :=
    Hash(0x506e3058, 0xd39a2165, 0x04d24d6c, 0xb85e2ce9, 0x5ef50f24, 0xfb121210, 0x948d25b6, 0x961f4894)

  lemma WordsFollow()
    ensures NextWords(Words0, Words1) == Words2
    ensures NextWords(Words1, Words2) == Words3
    ensures NextWords(Words2, Words3) == Words4
    ensures NextWords(Words3, Words4) == Words5
    ensures NextWords(Words4, Words5) == Words6
    ensures NextWords(Words5, Words6) == Words7
  {
  }

  lemma TurnsFollow0()
    ensures EightTurns(After0, Constants(0), Words0) == After1
    ensures EightTurns(After1, Constants(1), Words1) == After2
  {
  }

  lemma TurnsFollow1()
    ensures EightTurns(After2, Constants(2), Words2) == After3
    ensures EightTurns(After3, Constants(3), Words3) == After4
  {
  }

  lemma TurnsFollow2()
    ensures EightTurns(After4, Constants(4), Words4) == After5
    ensures EightTurns(After5, Constants(5), Words5) == After6
  {
  }

  lemma TurnsFollow3()
    ensures EightTurns(After6, Constants(6), Words6) == After7
    ensures EightTurns(After7, Constants(7), Words7) == After8
  {
  }

  // ------------------------------------------------------------------------------
  // The digest
  // ------------------------------------------------------------------------------

  lemma FirstOfExample()
    ensures |Pad(ABC)| == 64 && WordsAre(Pad(ABC), 0, Words0) && WordsAre(Pad(ABC), 8, Words1)
  {
    hide Pad;
    PaddedAbc();
    var m := Pad(ABC);
    assert m[0] == m[..3][0] && m[1] == m[..3][1] && m[2] == m[..3][2];
    assert Word(m, 0) == 0x61626380 && Word(m, 15) == 0x18;
    assert forall i | 0 < i < 15 :: Word(m, i) == 0;
    forall i | 0 <= i < 16 ensures W(m, i) == Word(m, i) {
      FirstWords(m, i);
    }
  }

  lemma WordsOfExample()
    ensures |Pad(ABC)| == 64
    ensures WordsAre(Pad(ABC), 0, Words0)
    ensures WordsAre(Pad(ABC), 8, Words1)
    ensures WordsAre(Pad(ABC), 16, Words2)
    ensures WordsAre(Pad(ABC), 24, Words3)
    ensures WordsAre(Pad(ABC), 32, Words4)
    ensures WordsAre(Pad(ABC), 40, Words5)
    ensures WordsAre(Pad(ABC), 48, Words6)
    ensures WordsAre(Pad(ABC), 56, Words7)
  {
    hide Pad, WordsAre, NextWords;
    FirstOfExample();
    WordsFollow();
    NextWordsAre(Pad(ABC), 0, Words0, Words1);
    NextWordsAre(Pad(ABC), 8, Words1, Words2);
    NextWordsAre(Pad(ABC), 16, Words2, Words3);
    NextWordsAre(Pad(ABC), 24, Words3, Words4);
    NextWordsAre(Pad(ABC), 32, Words4, Words5);
    NextWordsAre(Pad(ABC), 40, Words5, Words6);
  }

  lemma RoundsOfExample()
    ensures |Pad(ABC)| == 64 && Rounds(Pad(ABC), INIT, 64) == After8
  {
    hide Pad, WordsAre, EightTurns, Constants;
    WordsOfExample();
    TurnsFollow0();
    TurnsFollow1();
    TurnsFollow2();
    TurnsFollow3();
    NoRounds(Pad(ABC), INIT);
    assert INIT == After0;
    hide Rounds;
    EightRounds(Pad(ABC), 0, Words0);
    EightRounds(Pad(ABC), 1, Words1);
    EightRounds(Pad(ABC), 2, Words2);
    EightRounds(Pad(ABC), 3, Words3);
    EightRounds(Pad(ABC), 4, Words4);
    EightRounds(Pad(ABC), 5, Words5);
    EightRounds(Pad(ABC), 6, Words6);
    EightRounds(Pad(ABC), 7, Words7);
  }

  /** The digest of "abc" is ba7816bf 8f01cfea 414140de 5dae2223 b00361a3 96177a9c b410ff61 f20015ad. */
  lemma DigestOfAbc()
    ensures Digest(ABC) == [0xba, 0x78, 0x16, 0xbf, 0x8f, 0x01, 0xcf, 0xea, 0x41, 0x41, 0x40, 0xde,
                            0x5d, 0xae, 0x22, 0x23, 0xb0, 0x03, 0x61, 0xa3, 0x96, 0x17, 0x7a, 0x9c,
                            0xb4, 0x10, 0xff, 0x61, 0xf2, 0x00, 0x15, 0xad]
  {
    hide Pad, Rounds, WordBytes;
    RoundsOfExample();
    assert Pad(ABC)[..64] == Pad(ABC) && Pad(ABC)[64..] == [];
    BytesOfDigest();
  }

  lemma BytesOfDigest()
    ensures WordBytes(0xba7816bf) == [0xba, 0x78, 0x16, 0xbf] && WordBytes(0x8f01cfea) == [0x8f, 0x01, 0xcf, 0xea]
    ensures WordBytes(0x414140de) == [0x41, 0x41, 0x40, 0xde] && WordBytes(0x5dae2223) == [0x5d, 0xae, 0x22, 0x23]
    ensures WordBytes(0xb00361a3) == [0xb0, 0x03, 0x61, 0xa3] && WordBytes(0x96177a9c) == [0x96, 0x17, 0x7a, 0x9c]
    ensures WordBytes(0xb410ff61) == [0xb4, 0x10, 0xff, 0x61] && WordBytes(0xf20015ad) == [0xf2, 0x00, 0x15, 0xad]
  {
  }
}
