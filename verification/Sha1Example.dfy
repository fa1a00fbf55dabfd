/** The example of SHA-1 published with FIPS 180-4: the definition gives the digest of "abc". */
module Sha1Example {
  import opened ShaBlocks
  import opened Sha1

  // ------------------------------------------------------------------------------
  // Eight words and eight rounds at a time
  // ------------------------------------------------------------------------------

  ghost predicate WordsAre(m: seq<bv8>, t: nat, w: seq<bv32>)
    requires |m| == 64
  {
    |w| == 8 && forall j | 0 <= j < 8 :: W(m, t + j) == w[j]
  }

  /** The three rotations, with their distances written out. */
  function By1(v: bv32): bv32 {
    (v << 1) | (v >> 31)
  }

  function By5(v: bv32): bv32 {
    (v << 5) | (v >> 27)
  }

  function By30(v: bv32): bv32 {
    (v << 30) | (v >> 2)
  }

  lemma Rotations(v: bv32)
    ensures RotL(v, 1) == By1(v) && RotL(v, 5) == By5(v) && RotL(v, 30) == By30(v)
  {
  }

  function Stretch(p: bv32, q: bv32, r: bv32, s: bv32): bv32 {
    By1(p ^ q ^ r ^ s)
  }

  function NextWords(v: seq<bv32>, w: seq<bv32>): (x: seq<bv32>)
    requires |v| == |w| == 8
    ensures |x| == 8
  {
    var x0 := Stretch(w[5], w[0], v[2], v[0]);
    var x1 := Stretch(w[6], w[1], v[3], v[1]);
    var x2 := Stretch(w[7], w[2], v[4], v[2]);
    var x3 := Stretch(x0, w[3], v[5], v[3]);
    var x4 := Stretch(x1, w[4], v[6], v[4]);
    [x0, x1, x2, x3, x4, Stretch(x2, w[5], v[7], v[5]), Stretch(x3, w[6], w[0], v[6]), Stretch(x4, w[7], w[1], v[7])]
  }

  lemma NextWord(m: seq<bv8>, t: nat)
    requires |m| == 64
    ensures W(m, t + 16) == Stretch(W(m, t + 13), W(m, t + 8), W(m, t + 2), W(m, t))
  {
    hide W, RotL, By1;
    LaterWords(m, t + 16);
    Rotations(W(m, t + 13) ^ W(m, t + 8) ^ W(m, t + 2) ^ W(m, t));
  }

  lemma NextWordsAre(m: seq<bv8>, t: nat, v: seq<bv32>, w: seq<bv32>)
    requires |m| == 64 && WordsAre(m, t, v) && WordsAre(m, t + 8, w)
    ensures WordsAre(m, t + 16, NextWords(v, w))
  {
    hide W, Stretch;
    assert forall j | 0 <= j < 8 :: W(m, t + j) == v[j] && W(m, t + 8 + j) == w[j];
    NextWord(m, t);
    NextWord(m, t + 1);
    NextWord(m, t + 2);
    NextWord(m, t + 3);
    NextWord(m, t + 4);
    NextWord(m, t + 5);
    NextWord(m, t + 6);
    NextWord(m, t + 7);
  }

  function Added(a: bv32, f: bv32, e: bv32, k: bv32, w: bv32): bv32 {
    a + f + e + k + w
  }

  lemma SumIsAdded(a: bv32, f: bv32, e: bv32, k: bv32, w: bv32)
    ensures Sum(a, f, e, k, w) == Added(RotL(a, 5), f, e, k, w)
  {
    hide RotL;
  }

  /** A round with its rotations written out. */
  function Turn(s: Hash, t: nat, w: bv32): Hash {
    Hash(Added(By5(s.a), F(t, s.b, s.c, s.d), s.e, K(t), w), s.a, By30(s.b), s.c, s.d)
  }

  lemma RoundIsTurn(s: Hash, t: nat, w: bv32)
    ensures Round(s, t, w) == Turn(s, t, w)
  {
    hide F, K, RotL, Added, Sum, By5, By30;
    SumIsAdded(s.a, F(t, s.b, s.c, s.d), s.e, K(t), w);
    Rotations(s.a);
    Rotations(s.b);
  }

  function EightTurns(s: Hash, t: nat, w: seq<bv32>): Hash
    requires |w| == 8
  {
    var u := Turn(Turn(Turn(Turn(s, t, w[0]), t + 1, w[1]), t + 2, w[2]), t + 3, w[3]);
    Turn(Turn(Turn(Turn(u, t + 4, w[4]), t + 5, w[5]), t + 6, w[6]), t + 7, w[7])
  }

  lemma OneTurn(m: seq<bv8>, t: nat)
    requires |m| == 64
    ensures Rounds(m, INIT, t + 1) == Turn(Rounds(m, INIT, t), t, W(m, t))
  {
    hide W, Round, Turn;
    NextRound(m, INIT, t);
    RoundIsTurn(Rounds(m, INIT, t), t, W(m, t));
  }

  lemma EightRounds(m: seq<bv8>, t: nat, w: seq<bv32>)
    requires |m| == 64 && WordsAre(m, t, w)
    ensures Rounds(m, INIT, t + 8) == EightTurns(Rounds(m, INIT, t), t, w)
  {
    hide W, Turn, Rounds;
    assert forall j | 0 <= j < 8 :: W(m, t + j) == w[j];
    OneTurn(m, t);
    OneTurn(m, t + 1);
    OneTurn(m, t + 2);
    OneTurn(m, t + 3);
    OneTurn(m, t + 4);
    OneTurn(m, t + 5);
    OneTurn(m, t + 6);
    OneTurn(m, t + 7);
  }

  // ------------------------------------------------------------------------------
  // The numbers of the example
  // ------------------------------------------------------------------------------

  /** Eight words of the schedule to a row. */
  const Words0: seq<bv32> :=
    [0x61626380, 0x00000000, 0x00000000, 0x00000000, 0x00000000, 0x00000000, 0x00000000, 0x00000000]
  const Words1: seq<bv32> :=
    [0x00000000, 0x00000000, 0x00000000, 0x00000000, 0x00000000, 0x00000000, 0x00000000, 0x00000018]
  const Words2: seq<bv32> :=
    [0xc2c4c700, 0x00000000, 0x00000030, 0x85898e01, 0x00000000, 0x00000060, 0x0b131c03, 0x00000030]
  const Words3: seq<bv32> :=
    [0x85898ec1, 0x16263806, 0x00000000, 0x00000180, 0x2c4c700c, 0x000000f0, 0x93afb507, 0x5898e048]
  const Words4: seq<bv32> :=
    [0x8e9a9202, 0x00000600, 0xb131c0f0, 0x16263bc6, 0x4ebed41e, 0x626380a1, 0x16263806, 0x000018c0]
  const Words5: seq<bv32> :=
    [0xd2e138c4, 0x00000f00, 0x3afb5079, 0x898e04e5, 0xe2ba3c2b, 0x000060c0, 0x053a37cd, 0x74458547]
  const Words6: seq<bv32> :=
    [0xda9415ed, 0x26380a16, 0x626383a1, 0x4ebf54de, 0x3835b44b, 0x0000f600, 0x1e84c7a3, 0x98e04d98]
  const Words7: seq<bv32> :=
    [0x651d16a0, 0x62658ca1, 0x458544d6, 0x44584cb7, 0x7ba06619, 0x6380aea2, 0x0ae55269, 0x627b49a1]
  const Words8: seq<bv32> :=
    [0x7cd45c9d, 0x000f0000, 0xfb50753a, 0xec6765e8, 0xba3c2be2, 0x0060c000, 0x3a37cd05, 0x458546f4]
  const Words9: seq<bv32> :=
    [0xb8599dd6, 0x380a1a26, 0x01e02203, 0xe7cc3456, 0xe6e60b69, 0x00f60a00, 0x5795ef4f, 0x822e0879]

  /** The state after every eight rounds. */
  const After0: Hash := Hash(0x67452301, 0xefcdab89, 0x98badcfe, 0x10325476, 0xc3d2e1f0)
  const After1: Hash := Hash(0x9e8c07d4, 0x993e30c1, 0x0ff1f290, 0xb3f52677, 0xf3763846)
  const After2: Hash := Hash(0x20bdd62f, 0x196bee77, 0x644a3da5, 0x1181ed99, 0x18c623f9)
  const After3: Hash := Hash(0xd541f12d, 0x21283486, 0x0ce88eff, 0x868dec32, 0x7f67875f)
  const After4: Hash := Hash(0x3b845d33, 0x1267b407, 0x717eebd7, 0xa0dc2d4b, 0xd2aa1365)
  const After5: Hash := Hash(0x32de1cba, 0x4c986405, 0xf718e5cf, 0x03d447f6, 0xf72eec32)
  const After6: Hash := Hash(0xbead02ca, 0xa01b846c, 0x8714787c, 0x503ca382, 0xfb86c6ab)
  const After7: Hash := Hash(0x5e6456af, 0x7b71f76d, 0x09fa7c76, 0x792410db, 0x8e11eb59)
  const After8: Hash := Hash(0x6b61c9e1, 0xb66c020b, 0x9523272c, 0xf5d5b051, 0x8fd4b796)
  const After9: Hash := Hash(0x39859de7, 0xc199f8c7, 0x8fc96230, 0x125c24f0, 0xde37534a)
  const After10: Hash := Hash(0x42541b35, 0x5738d5e1, 0x21834873, 0x681e6df6, 0xd8fdf6ad)

  lemma WordsFollow0()
    ensures NextWords(Words0, Words1) == Words2
    ensures NextWords(Words1, Words2) == Words3
    ensures NextWords(Words2, Words3) == Words4
    ensures NextWords(Words3, Words4) == Words5
  {
  }

  lemma WordsFollow1()
    ensures NextWords(Words4, Words5) == Words6
    ensures NextWords(Words5, Words6) == Words7
    ensures NextWords(Words6, Words7) == Words8
    ensures NextWords(Words7, Words8) == Words9
  {
  }

  lemma TurnsFollow0()
    ensures EightTurns(After0, 0, Words0) == After1
    ensures EightTurns(After1, 8, Words1) == After2
    ensures EightTurns(After2, 16, Words2) == After3
    ensures EightTurns(After3, 24, Words3) == After4
    ensures EightTurns(After4, 32, Words4) == After5
  {
  }

  lemma TurnsFollow1()
    ensures EightTurns(After5, 40, Words5) == After6
    ensures EightTurns(After6, 48, Words6) == After7
    ensures EightTurns(After7, 56, Words7) == After8
    ensures EightTurns(After8, 64, Words8) == After9
    ensures EightTurns(After9, 72, Words9) == After10
  {
  }

  // ------------------------------------------------------------------------------
  // The digest
  // ------------------------------------------------------------------------------

  lemma FirstOfExample()
    ensures |Pad(ABC)| == 64 && WordsAre(Pad(ABC), 0, Words0) && WordsAre(Pad(ABC), 8, Words1)
  {
    hide Pad;
    PaddedAbc();
    var m := Pad(ABC);
    assert m[0] == m[..3][0] && m[1] == m[..3][1] && m[2] == m[..3][2];
    assert Word(m, 0) == 0x61626380 && Word(m, 15) == 0x18;
    assert forall i | 0 < i < 15 :: Word(m, i) == 0;
    forall i | 0 <= i < 16 ensures W(m, i) == Word(m, i) {
      FirstWords(m, i);
    }
  }

  lemma WordsOfExample()
    ensures |Pad(ABC)| == 64
    ensures WordsAre(Pad(ABC), 0, Words0)
    ensures WordsAre(Pad(ABC), 8, Words1)
    ensures WordsAre(Pad(ABC), 16, Words2)
    ensures WordsAre(Pad(ABC), 24, Words3)
    ensures WordsAre(Pad(ABC), 32, Words4)
    ensures WordsAre(Pad(ABC), 40, Words5)
    ensures WordsAre(Pad(ABC), 48, Words6)
    ensures WordsAre(Pad(ABC), 56, Words7)
    ensures WordsAre(Pad(ABC), 64, Words8)
    ensures WordsAre(Pad(ABC), 72, Words9)
  {
    hide Pad, WordsAre, NextWords;
    FirstOfExample();
    WordsFollow0();
    WordsFollow1();
    NextWordsAre(Pad(ABC), 0, Words0, Words1);
    NextWordsAre(Pad(ABC), 8, Words1, Words2);
    NextWordsAre(Pad(ABC), 16, Words2, Words3);
    NextWordsAre(Pad(ABC), 24, Words3, Words4);
    NextWordsAre(Pad(ABC), 32, Words4, Words5);
    NextWordsAre(Pad(ABC), 40, Words5, Words6);
    NextWordsAre(Pad(ABC), 48, Words6, Words7);
    NextWordsAre(Pad(ABC), 56, Words7, Words8);
  }

  lemma RoundsOfExample()
    ensures |Pad(ABC)| == 64 && Rounds(Pad(ABC), INIT, 80) == After10
  {
    hide Pad, WordsAre, EightTurns;
    WordsOfExample();
    TurnsFollow0();
    TurnsFollow1();
    NoRounds(Pad(ABC), INIT);
    assert INIT == After0;
    hide Rounds;
    EightRounds(Pad(ABC), 0, Words0);
    EightRounds(Pad(ABC), 8, Words1);
    EightRounds(Pad(ABC), 16, Words2);
    EightRounds(Pad(ABC), 24, Words3);
    EightRounds(Pad(ABC), 32, Words4);
    EightRounds(Pad(ABC), 40, Words5);
    EightRounds(Pad(ABC), 48, Words6);
    EightRounds(Pad(ABC), 56, Words7);
    EightRounds(Pad(ABC), 64, Words8);
    EightRounds(Pad(ABC), 72, Words9);
  }

  /** The digest of "abc" is a9993e36 4706816a ba3e2571 7850c26c 9cd0d89d. */
  lemma DigestOfAbc()
    ensures Digest(ABC) == [0xa9, 0x99, 0x3e, 0x36, 0x47, 0x06, 0x81, 0x6a, 0xba, 0x3e, 0x25, 0x71,
                            0x78, 0x50, 0xc2, 0x6c, 0x9c, 0xd0, 0xd8, 0x9d]
  {
    hide Pad, Rounds, WordBytes, Compress;
    RoundsOfExample();
    StateOfExample();
    OneBlock(INIT, Pad(ABC));
    BytesOfDigest();
  }

  lemma StateOfExample()
    requires |Pad(ABC)| == 64 && Rounds(Pad(ABC), INIT, 80) == After10
    ensures Compress(INIT, Pad(ABC)) == Hash(0xa9993e36, 0x4706816a, 0xba3e2571, 0x7850c26c, 0x9cd0d89d)
  {
    hide Pad, Rounds;
  }

  lemma BytesOfDigest()
    ensures WordBytes(0xa9993e36) == [0xa9, 0x99, 0x3e, 0x36]
    ensures WordBytes(0x4706816a) == [0x47, 0x06, 0x81, 0x6a]
    ensures WordBytes(0xba3e2571) == [0xba, 0x3e, 0x25, 0x71]
    ensures WordBytes(0x7850c26c) == [0x78, 0x50, 0xc2, 0x6c]
    ensures WordBytes(0x9cd0d89d) == [0x9c, 0xd0, 0xd8, 0x9d]
  {
  }
}
