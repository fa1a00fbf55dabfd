/** The rolling hash that guards every span of a distributed session
    (dist_token_hash_update and its callers in ds4_distributed.c).

    A state is a 64-bit word kept as an integer; the start constant is the program's own. */
module TokenHash {

  import opened Bytes

  const WORD: nat := 0x1_0000_0000_0000_0000
  const PRIME: nat := 1099511628211
  const INIT: Hash := 1469598103934665603

  /** PRIME is odd, so it has an inverse modulo 2^64. */
  const PRIME_INVERSE: nat := 14886173955864302971

  type Hash = h: nat | h < WORD
  type Token = t: nat | t < 0x1_0000_0000

  /** Exclusive or of the low `bits` bits. */
  function Xor(a: nat, b: nat, bits: nat): (r: nat)
  {
    if bits == 0 then 0 else (a + b) % 2 + 2 * Xor(a / 2, b / 2, bits - 1)
  }

  lemma {:induction false} XorFits(a: nat, b: nat, bits: nat)
    ensures Xor(a, b, bits) < Power2(bits)
  {
    if 0 < bits { XorFits(a / 2, b / 2, bits - 1); }
  }

  lemma Halves(m: nat, x: nat)
    requires m < 2
    ensures (m + 2 * x) / 2 == x && (m + 2 * x) % 2 == m
  {
  }

  lemma Parity(a: nat, b: nat, x: nat)
    ensures ((a + b) % 2 + 2 * x + b) % 2 == a % 2
  {
    Halves((a + b) % 2, (a + b) / 2);
    Halves(a % 2, a / 2 - (a + b) / 2 + b + x + (a + b) / 2);
    assert (a + b) % 2 + 2 * x + b == a % 2 + 2 * (a / 2 - (a + b) / 2 + b + x);
  }

  lemma {:induction false} XorTwice(a: nat, b: nat, bits: nat)
    requires a < Power2(bits)
    ensures Xor(Xor(a, b, bits), b, bits) == a
  {
    if 0 < bits {
      var m, x := (a + b) % 2, Xor(a / 2, b / 2, bits - 1);
      Halves(m, x);
      Parity(a, b, x);
      XorTwice(a / 2, b / 2, bits - 1);
      assert Xor(m + 2 * x, b, bits) == (m + 2 * x + b) % 2 + 2 * Xor(x, b / 2, bits - 1);
    }
  }

  function Power2(n: nat): nat {
    if n == 0 then 1 else 2 * Power2(n - 1)
  }

  lemma EightBits()
    ensures Power2(8) == 256
  {
    assert Power2(4) == 16;
  }

  /** Exclusive or of two bytes. */
  function XorByte(a: Byte, b: Byte): Byte {
    XorFits(a, b, 8);
    EightBits();
    Xor(a, b, 8)
  }

  /** Exclusive or with a byte: only the low eight bits take part. */
  function XorLow(h: Hash, b: Byte): (r: Hash)
    ensures r / 256 == h / 256
  {
    h / 256 * 256 + XorByte(h % 256, b)
  }

  function Times(h: Hash): Hash {
    h * PRIME % WORD
  }

  /** One byte of a token enters the hash. */
  function Mix(h: Hash, b: Byte): Hash {
    Times(XorLow(h, b))
  }

  function TokenByte(t: Token, i: nat): Byte
    requires i < 4
  {
    if i == 0 then t % 256
    else if i == 1 then t / 0x100 % 256
    else if i == 2 then t / 0x1_0000 % 256
    else t / 0x100_0000
  }

  /** A token enters byte by byte, least significant first. */
  function Update(h: Hash, t: Token): Hash {
    Mix(Mix(Mix(Mix(h, TokenByte(t, 0)), TokenByte(t, 1)), TokenByte(t, 2)), TokenByte(t, 3))
  }

  function UpdateSpan(h: Hash, tokens: seq<Token>): Hash
    decreases tokens
  {
    if tokens == [] then h else UpdateSpan(Update(h, tokens[0]), tokens[1..])
  }

  function Prefix(tokens: seq<Token>): Hash {
    UpdateSpan(INIT, tokens)
  }

  // ------------------------------------------------------------------------------
  // The loops
  // ------------------------------------------------------------------------------

  method UpdateToken(h0: Hash, t: Token) returns (h: Hash)
    ensures h == Update(h0, t)
  {
    h := h0;
    var i := 0;
    while i < 4
      invariant 0 <= i <= 4
      invariant i == 0 ==> h == h0
      invariant i == 1 ==> h == Mix(h0, TokenByte(t, 0))
      invariant i == 2 ==> h == Mix(Mix(h0, TokenByte(t, 0)), TokenByte(t, 1))
      invariant i == 3 ==> h == Mix(Mix(Mix(h0, TokenByte(t, 0)), TokenByte(t, 1)), TokenByte(t, 2))
      invariant i == 4 ==> h == Update(h0, t)
    {
      h := XorLow(h, TokenByte(t, i));
      h := Times(h);
      i := i + 1;
    }
  }

  method UpdateTokens(h0: Hash, tokens: seq<Token>) returns (h: Hash)
    ensures h == UpdateSpan(h0, tokens)
  {
    h := h0;
    var i := 0;
    while i < |tokens|
      invariant 0 <= i <= |tokens|
      invariant UpdateSpan(h, tokens[i..]) == UpdateSpan(h0, tokens)
    {
      assert tokens[i..][1..] == tokens[i + 1..];
      h := UpdateToken(h, tokens[i]);
      i := i + 1;
    }
  }

  // ------------------------------------------------------------------------------
  // What the hash is a hash of
  // ------------------------------------------------------------------------------

  function Bit(n: nat, i: nat): nat {
    if i == 0 then n % 2 else Bit(n / 2, i - 1)
  }

  lemma {:induction false} XorBit(a: nat, b: nat, bits: nat, i: nat)
    requires i < bits
    ensures Bit(Xor(a, b, bits), i) == 1 <==> Bit(a, i) != Bit(b, i)
  {
    Halves((a + b) % 2, Xor(a / 2, b / 2, bits - 1));
    if i == 0 {
      assert (a + b) % 2 == (a % 2 + b % 2) % 2;
    } else {
      XorBit(a / 2, b / 2, bits - 1, i - 1);
    }
  }

  /** FNV-1a over bytes: exclusive or with each byte, then times the prime, modulo 2^64. */
  function Fnv(h: Hash, bytes: seq<Byte>): Hash
    decreases bytes
  {
    if bytes == [] then h else Fnv(Xor(h, bytes[0], 64) * 0x100_0000_01b3 % WORD, bytes[1..])
  }

  function LittleEndian(tokens: seq<Token>): seq<Byte> {
    if tokens == [] then [] else Little(tokens[0]) + LittleEndian(tokens[1..])
  }

  lemma {:induction false} XorNothing(a: nat, bits: nat)
    requires a < Power2(bits)
    ensures Xor(a, 0, bits) == a
  {
    if 0 < bits { XorNothing(a / 2, bits - 1); }
  }

  lemma HalfOfSum(m: nat, r: nat, b: nat)
    ensures (2 * m + r) / 2 == m + r / 2 && (2 * m + r + b) % 2 == (r + b) % 2
  {
    assert 2 * m + r + b == 2 * (m + (r + b) / 2) + (r + b) % 2;
  }

  lemma TwiceTimes(p: nat, q: nat)
    ensures q * (2 * p) == 2 * (q * p)
  {
  }

  /** The bits above those of `b` stay. */
  lemma {:induction false} XorOnlyLow(q: nat, r: nat, b: nat, low: nat, high: nat)
    requires b < Power2(low) && r < Power2(low) && q < Power2(high)
    ensures Xor(q * Power2(low) + r, b, low + high) == q * Power2(low) + Xor(r, b, low)
    decreases low
  {
    if low == 0 {
      XorNothing(q, high);
    } else {
      var p := Power2(low - 1);
      TwiceTimes(p, q);
      HalfOfSum(q * p, r, b);
      XorOnlyLow(q, r / 2, b / 2, low - 1, high);
    }
  }

  lemma {:induction false} PowersAdd(m: nat, n: nat)
    ensures Power2(m + n) == Power2(m) * Power2(n)
  {
    if 0 < m {
      PowersAdd(m - 1, n);
      assert 2 * (Power2(m - 1) * Power2(n)) == 2 * Power2(m - 1) * Power2(n);
    }
  }

  lemma Word()
    ensures Power2(64) == WORD
  {
    EightBits();
    PowersAdd(8, 8);
    PowersAdd(16, 16);
    PowersAdd(32, 32);
  }

  lemma MixIsFnv(h: Hash, b: Byte)
    ensures Mix(h, b) == Fnv(h, [b])
  {
    Word();
    EightBits();
    PowersAdd(8, 56);
    XorOnlyLow(h / 256, h % 256, b, 8, 56);
    assert [b][1..] == [];
  }

  lemma {:induction false} FnvOf(h: Hash, a: seq<Byte>, b: seq<Byte>)
    ensures Fnv(h, a + b) == Fnv(Fnv(h, a), b)
    decreases a
  {
    if a == [] {
      assert a + b == b;
    } else {
      assert (a + b)[1..] == a[1..] + b;
      FnvOf(Xor(h, a[0], 64) * 0x100_0000_01b3 % WORD, a[1..], b);
    }
  }

  lemma UpdateIsFnv(h: Hash, t: Token)
    ensures Update(h, t) == Fnv(h, Little(t))
  {
    hide Fnv, Mix;
    var b0, b1, b2, b3 := TokenByte(t, 0), TokenByte(t, 1), TokenByte(t, 2), TokenByte(t, 3);
    MixIsFnv(h, b0);
    MixIsFnv(Mix(h, b0), b1);
    MixIsFnv(Mix(Mix(h, b0), b1), b2);
    MixIsFnv(Mix(Mix(Mix(h, b0), b1), b2), b3);
    FnvOf(h, [b0], [b1]);
    FnvOf(h, [b0] + [b1], [b2]);
    FnvOf(h, [b0] + [b1] + [b2], [b3]);
    assert Little(t) == [b0] + [b1] + [b2] + [b3];
  }

  /** The hash of a span is FNV-1a over the tokens' four bytes each, least significant first. */
  lemma {:induction false} SpanIsFnv(h: Hash, tokens: seq<Token>)
    ensures UpdateSpan(h, tokens) == Fnv(h, LittleEndian(tokens))
    decreases tokens
  {
    hide Fnv, Update;
    if tokens == [] {
      FnvNothing(h);
    } else {
      UpdateIsFnv(h, tokens[0]);
      SpanIsFnv(Update(h, tokens[0]), tokens[1..]);
      FnvOf(h, Little(tokens[0]), LittleEndian(tokens[1..]));
    }
  }

  lemma FnvNothing(h: Hash)
    ensures Fnv(h, []) == h
  {
  }

  // ------------------------------------------------------------------------------
  // For a fixed token the update is a bijection
  // ------------------------------------------------------------------------------

  function DivideByPrime(h: Hash): Hash {
    h * PRIME_INVERSE % WORD
  }

  lemma Residue(x: int, r: int, k: int)
    requires x == r + WORD * k && 0 <= r < WORD
    ensures x % WORD == r
  {
  }

  lemma DivideUndoesTimes(h: Hash)
    ensures DivideByPrime(Times(h)) == h
    ensures Times(DivideByPrime(h)) == h
  {
    var k := 887285111055;
    assert PRIME * PRIME_INVERSE == 1 + WORD * k;
    var q := h * PRIME / WORD;
    Residue(Times(h) * PRIME_INVERSE, h, h * k - q * PRIME_INVERSE);
    var p := h * PRIME_INVERSE / WORD;
    Residue(DivideByPrime(h) * PRIME, h, h * k - p * PRIME);
  }

  lemma XorLowUndoesItself(h: Hash, b: Byte)
    ensures XorLow(XorLow(h, b), b) == h
  {
    EightBits();
    XorTwice(h % 256, b, 8);
    assert XorLow(h, b) % 256 == XorByte(h % 256, b);
  }

  function Unmix(h: Hash, b: Byte): Hash {
    XorLow(DivideByPrime(h), b)
  }

  lemma UnmixUndoesMix(h: Hash, b: Byte)
    ensures Unmix(Mix(h, b), b) == h
    ensures Mix(Unmix(h, b), b) == h
  {
    DivideUndoesTimes(XorLow(h, b));
    DivideUndoesTimes(h);
    XorLowUndoesItself(h, b);
    XorLowUndoesItself(DivideByPrime(h), b);
  }

  // ------------------------------------------------------------------------------
  // For a fixed state the update is injective in the token
  // ------------------------------------------------------------------------------

  /** Two states that an exclusive or with some byte could make equal. */
  ghost predicate SameBlock(x: Hash, y: Hash) {
    x / 256 == y / 256
  }

  lemma MixEqual(x: Hash, b: Byte, y: Hash, c: Byte)
    requires Mix(x, b) == Mix(y, c)
    ensures SameBlock(x, y)
    ensures x == y ==> b == c
  {
    UnmixUndoesMix(x, b);
    UnmixUndoesMix(y, c);
    DivideUndoesTimes(XorLow(x, b));
    DivideUndoesTimes(XorLow(y, c));
    assert XorLow(x, b) == XorLow(y, c);
    if x == y {
      XorByteInjective(x % 256, b, c);
    }
  }

  lemma XorByteInjective(a: Byte, b: Byte, c: Byte)
    requires XorByte(a, b) == XorByte(a, c)
    ensures b == c
  {
    XorCommutes(a, b, 8);
    XorCommutes(a, c, 8);
    EightBits();
    XorTwice(b, a, 8);
    XorTwice(c, a, 8);
  }

  lemma {:induction false} XorCommutes(a: nat, b: nat, bits: nat)
    ensures Xor(a, b, bits) == Xor(b, a, bits)
  {
    if 0 < bits { XorCommutes(a / 2, b / 2, bits - 1); }
  }

  /** The heart of injectivity, in plain integers.  d, e and f are what the first three bytes
      add to the difference of two states; if what they accumulate could still be cancelled
      by the last byte, all of them were zero.  PRIME is 2^40 + 435. */
  lemma NoCancellation(d: int, e: int, f: int, k: int, c: int)
    requires -256 < d < 256 && -511 < e < 511 && -511 < f < 511 && -256 < c < 256
    requires c == ((d * PRIME + e) * PRIME + f) * PRIME + k * WORD
    ensures d == 0 && e == 0 && f == 0
  {
    var top := 0x100_0000_0000;
    var low := 435 * (435 * (435 * d + e) + f);
    var high := 567675 * d + 870 * e + f;
    assert ((d * PRIME + e) * PRIME + f) * PRIME
        == low + top * (high + top * (1305 * d + e) + top * top * d);
    assert c - low == top * (high + top * (1305 * d + e) + top * top * d + k * 0x100_0000);
    assert c == low;
    assert high == 0;
  }

  /** What an exclusive or adds to the difference of two states. */
  lemma XorDifference(x: Hash, b: Byte, y: Hash, c: Byte)
    ensures var e := (XorLow(x, b) - XorLow(y, c)) - (x - y);
      && -511 < e < 511
      && (x == y ==> -256 < e < 256)
  {
    assert x == x / 256 * 256 + x % 256;
    assert y == y / 256 * 256 + y % 256;
  }

  /** Mixing in a byte, seen as arithmetic on the difference of two states. */
  lemma MixDifference(x: Hash, b: Byte, y: Hash, c: Byte) returns (e: int, k: int)
    ensures Mix(x, b) - Mix(y, c) == (x - y + e) * PRIME + k * WORD
    ensures -511 < e < 511
    ensures x == y ==> -256 < e < 256
    ensures x == y && e == 0 ==> b == c
  {
    var x', y' := XorLow(x, b), XorLow(y, c);
    XorDifference(x, b, y, c);
    e := (x' - y') - (x - y);
    k := y' * PRIME / WORD - x' * PRIME / WORD;
    if x == y && e == 0 {
      XorByteInjective(x % 256, b, c);
    }
  }

  lemma NoThreeDifferencesCancel(h1: Hash, g1: Hash, h2: Hash, g2: Hash, h3: Hash, g3: Hash,
                                 d: int, e: int, f: int, k1: int, k2: int, k3: int)
    requires -256 < d < 256 && -511 < e < 511 && -511 < f < 511
    requires h1 - g1 == d * PRIME + k1 * WORD
    requires h2 - g2 == (h1 - g1 + e) * PRIME + k2 * WORD
    requires h3 - g3 == (h2 - g2 + f) * PRIME + k3 * WORD
    requires SameBlock(h3, g3)
    ensures d == 0 && e == 0 && f == 0
    ensures h1 == g1 && h2 == g2
  {
    NoCancellation(d, e, f, k1 * PRIME * PRIME + k2 * PRIME + k3, h3 - g3);
  }

  /** Three mixed bytes cannot be cancelled by a fourth unless they agree. */
  lemma ThreeBytesInjective(h: Hash, b0: Byte, b1: Byte, b2: Byte, c0: Byte, c1: Byte, c2: Byte)
    requires SameBlock(Mix(Mix(Mix(h, b0), b1), b2), Mix(Mix(Mix(h, c0), c1), c2))
    ensures b0 == c0 && b1 == c1 && b2 == c2
  {
    var h1, g1 := Mix(h, b0), Mix(h, c0);
    var h2, g2 := Mix(h1, b1), Mix(g1, c1);
    var d, k1 := MixDifference(h, b0, h, c0);
    var e, k2 := MixDifference(h1, b1, g1, c1);
    var f, k3 := MixDifference(h2, b2, g2, c2);
    NoThreeDifferencesCancel(h1, g1, h2, g2, Mix(h2, b2), Mix(g2, c2), d, e, f, k1, k2, k3);
  }

  lemma TokenFromBytes(t: Token)
    ensures t == TokenByte(t, 0) + 0x100 * TokenByte(t, 1) + 0x1_0000 * TokenByte(t, 2) + 0x100_0000 * TokenByte(t, 3)
  {
  }

  /** For a fixed state, different tokens give different states. */
  lemma UpdateInjectiveInToken(h: Hash, t: Token, u: Token)
    requires Update(h, t) == Update(h, u)
    ensures t == u
  {
    var h3 := Mix(Mix(Mix(h, TokenByte(t, 0)), TokenByte(t, 1)), TokenByte(t, 2));
    var g3 := Mix(Mix(Mix(h, TokenByte(u, 0)), TokenByte(u, 1)), TokenByte(u, 2));
    MixEqual(h3, TokenByte(t, 3), g3, TokenByte(u, 3));
    ThreeBytesInjective(h, TokenByte(t, 0), TokenByte(t, 1), TokenByte(t, 2),
                        TokenByte(u, 0), TokenByte(u, 1), TokenByte(u, 2));
    TokenFromBytes(t);
    TokenFromBytes(u);
  }

  // ------------------------------------------------------------------------------
  // Consequences for histories
  // ------------------------------------------------------------------------------

  function Unupdate(h: Hash, t: Token): Hash {
    Unmix(Unmix(Unmix(Unmix(h, TokenByte(t, 3)), TokenByte(t, 2)), TokenByte(t, 1)), TokenByte(t, 0))
  }

  /** For a fixed token, the update is a bijection on states. */
  lemma UpdateIsBijection(h: Hash, t: Token)
    ensures Unupdate(Update(h, t), t) == h
    ensures Update(Unupdate(h, t), t) == h
  {
    var b0, b1, b2, b3 := TokenByte(t, 0), TokenByte(t, 1), TokenByte(t, 2), TokenByte(t, 3);
    UnmixUndoesMix(h, b0);
    UnmixUndoesMix(Mix(h, b0), b1);
    UnmixUndoesMix(Mix(Mix(h, b0), b1), b2);
    UnmixUndoesMix(Mix(Mix(Mix(h, b0), b1), b2), b3);
    UnmixUndoesMix(h, b3);
    UnmixUndoesMix(Unmix(h, b3), b2);
    UnmixUndoesMix(Unmix(Unmix(h, b3), b2), b1);
    UnmixUndoesMix(Unmix(Unmix(Unmix(h, b3), b2), b1), b0);
  }

  lemma {:induction false} SpansCompose(h: Hash, a: seq<Token>, b: seq<Token>)
    ensures UpdateSpan(h, a + b) == UpdateSpan(UpdateSpan(h, a), b)
    decreases a
  {
    if a == [] {
      assert a + b == b;
    } else {
      assert (a + b)[1..] == a[1..] + b;
      SpansCompose(Update(h, a[0]), a[1..], b);
    }
  }

  /** A common suffix never hides a divergence. */
  lemma {:induction false} DivergencePersists(g: Hash, h: Hash, suffix: seq<Token>)
    requires g != h
    ensures UpdateSpan(g, suffix) != UpdateSpan(h, suffix)
    decreases suffix
  {
    if suffix != [] {
      UpdateIsBijection(g, suffix[0]);
      UpdateIsBijection(h, suffix[0]);
      DivergencePersists(Update(g, suffix[0]), Update(h, suffix[0]), suffix[1..]);
    }
  }

  /** Two histories of the same length that differ in exactly one token hash differently. */
  lemma OneTokenDiffers(a: seq<Token>, b: seq<Token>, at: nat)
    requires |a| == |b| && at < |a|
    requires a[at] != b[at]
    requires forall i | 0 <= i < |a| && i != at :: a[i] == b[i]
    ensures Prefix(a) != Prefix(b)
  {
    var before, after := a[..at], a[at + 1..];
    assert a == before + ([a[at]] + after);
    assert b == before + ([b[at]] + after);
    var h := Prefix(before);
    SpansCompose(INIT, before, [a[at]] + after);
    SpansCompose(INIT, before, [b[at]] + after);
    if Update(h, a[at]) == Update(h, b[at]) {
      UpdateInjectiveInToken(h, a[at], b[at]);
    }
    DivergencePersists(Update(h, a[at]), Update(h, b[at]), after);
    assert ([a[at]] + after)[1..] == after && ([b[at]] + after)[1..] == after;
  }
}
