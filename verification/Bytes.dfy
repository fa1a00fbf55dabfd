/** Bytes, 32-bit words and their two wire orders: network order for frames, little-endian
    order for snapshot files. */
module Bytes {

  type Byte = b: nat | b < 0x100
  type U32 = w: nat | w < 0x1_0000_0000

  /** The bytes of a text of ASCII characters. */
  function Ascii(text: string): seq<Byte>
    requires forall i | 0 <= i < |text| :: text[i] as int < 0x80
  {
    seq(|text|, i requires 0 <= i < |text| => text[i] as int)
  }

  /** The six bytes taken for white space in text. */
  predicate IsSpace(b: Byte) {
    b == 0x20 || b == 0x09 || b == 0x0a || b == 0x0d || b == 0x0c || b == 0x0b
  }

  /** Reading a value off the front of some bytes: the value and what is left, or too few. */
  datatype Read<+T> = Got(value: T, rest: seq<Byte>) | Short

  function Big(w: U32): (r: seq<Byte>)
    ensures |r| == 4
  {
    [w / 0x100_0000, w / 0x1_0000 % 0x100, w / 0x100 % 0x100, w % 0x100]
  }

  function FromBig(b: seq<Byte>): U32
    requires |b| == 4
  {
    var x: nat := b[0];
    var y: nat := b[1];
    var z: nat := b[2];
    x * 0x100_0000 + y * 0x1_0000 + z * 0x100 + b[3]
  }

  function Reversed(b: seq<Byte>): (r: seq<Byte>)
    requires |b| == 4
    ensures |r| == 4 && r[0] == b[3] && r[3] == b[0]
  {
    [b[3], b[2], b[1], b[0]]
  }

  function Little(w: U32): (r: seq<Byte>)
    ensures |r| == 4
  {
    Reversed(Big(w))
  }

  function FromLittle(b: seq<Byte>): U32
    requires |b| == 4
  {
    FromBig(Reversed(b))
  }

  /** Four bytes and the word they spell determine each other, in either order. */
  lemma BigInverse(w: U32, b: seq<Byte>)
    requires |b| == 4
    ensures FromBig(b) == w <==> b == Big(w)
  {
    BytesOfWord(b[0], b[1], b[2], b[3]);
    if FromBig(b) == w {
      assert b == Big(w);
    }
    if b == Big(w) {
      WordOfBytes(w);
    }
  }

  lemma WordOfBytes(w: nat)
    ensures w / 0x100_0000 * 0x100_0000 + w / 0x1_0000 % 0x100 * 0x1_0000 + w / 0x100 % 0x100 * 0x100 + w % 0x100 == w
  {
    assert w / 0x1_0000 == w / 0x100 / 0x100;
    assert w / 0x100_0000 == w / 0x1_0000 / 0x100;
  }

  lemma LittleInverse(w: U32, b: seq<Byte>)
    requires |b| == 4
    ensures FromLittle(b) == w <==> b == Little(w)
  {
    hide FromBig, Big;
    BigInverse(w, Reversed(b));
    assert Reversed(Reversed(b)) == b;
    assert Reversed(Reversed(Big(w))) == Big(w);
  }

  lemma BytesOfWord(a: nat, b: nat, c: nat, d: nat)
    requires a < 0x100 && b < 0x100 && c < 0x100 && d < 0x100
    ensures var w := a * 0x100_0000 + b * 0x1_0000 + c * 0x100 + d;
            w / 0x100_0000 == a && w / 0x1_0000 % 0x100 == b && w / 0x100 % 0x100 == c && w % 0x100 == d
  {
    var w := a * 0x100_0000 + b * 0x1_0000 + c * 0x100 + d;
    assert w / 0x1_0000 == a * 0x100 + b;
    assert w / 0x100 == a * 0x1_0000 + b * 0x100 + c;
  }

  // ------------------------------------------------------------------------------
  // Numbers at a place
  // ------------------------------------------------------------------------------

  /** The number in four bytes, the least significant first. */
  function LittleAt(b: seq<Byte>, p: nat): nat
    requires p + 4 <= |b|
  {
    (b[p] as nat) + 0x100 * b[p + 1] as nat + 0x1_0000 * b[p + 2] as nat + 0x100_0000 * b[p + 3] as nat
  }

  /** The number in four bytes, the most significant first. */
  function BigAt(b: seq<Byte>, p: nat): nat
    requires p + 4 <= |b|
  {
    0x100_0000 * b[p] as nat + 0x1_0000 * b[p + 1] as nat + 0x100 * b[p + 2] as nat + b[p + 3] as nat
  }

  lemma WordIsAt(b: seq<Byte>, p: nat, w: U32)
    requires p + 4 <= |b|
    ensures b[p..p + 4] == Little(w) ==> LittleAt(b, p) == w
    ensures b[p..p + 4] == Big(w) ==> BigAt(b, p) == w
  {
    WordOfBytes(w);
    var c := b[p..p + 4];
    assert c[0] == b[p] && c[1] == b[p + 1] && c[2] == b[p + 2] && c[3] == b[p + 3];
  }
}
