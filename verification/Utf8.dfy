/** UTF-8 as the crawl code checks it byte by byte and as it writes code points
    (ds4_raw_utf8_length, ds4_append_codepoint and ds4_valid_codepoint_length in
    ds4_crawl_grounding.c), against the encoding of section 3 of RFC 3629. */
module Utf8 {
  import opened Bytes

  /** Code points that are not surrogates. */
  predicate Scalar(cp: nat) {
    cp < 0xd800 || 0xe000 <= cp < 0x11_0000
  }

  function Encode(cp: nat): (r: seq<Byte>)
    requires Scalar(cp)
    ensures 1 <= |r| <= 4
  {
    if cp <= 0x7f then [cp]
    else if cp <= 0x7ff then [0xc0 + cp / 0x40, 0x80 + cp % 0x40]
    else if cp <= 0xffff then [0xe0 + cp / 0x1000, 0x80 + cp / 0x40 % 0x40, 0x80 + cp % 0x40]
    else [0xf0 + cp / 0x4_0000, 0x80 + cp / 0x1000 % 0x40, 0x80 + cp / 0x40 % 0x40, 0x80 + cp % 0x40]
  }

  /** The examples of section 7 of RFC 3629. */
  lemma PublishedExamples()
    ensures Encode(0x41) == [0x41] && Encode(0x2262) == [0xe2, 0x89, 0xa2] && Encode(0x391) == [0xce, 0x91]
    ensures Encode(0xd55c) == [0xed, 0x95, 0x9c] && Encode(0x65e5) == [0xe6, 0x97, 0xa5]
    ensures Encode(0x233b4) == [0xf0, 0xa3, 0x8e, 0xb4]
  {
  }

  predicate Tail(b: Byte) {
    0x80 <= b <= 0xbf
  }

  /** Length of the well-formed character at the front, or 0. */
  function RawLength(s: seq<Byte>): (n: nat)
    ensures n <= 4 && n <= |s|
  {
    if s == [] then 0
    else if s[0] < 0x80 then 1
    else if 0xc2 <= s[0] <= 0xdf then
      if 2 <= |s| && Tail(s[1]) then 2 else 0
    else if 0xe0 <= s[0] <= 0xef then
      if |s| < 3 || !Tail(s[2]) then 0
      else if s[0] == 0xe0 && (s[1] < 0xa0 || 0xbf < s[1]) then 0
      else if s[0] == 0xed && (s[1] < 0x80 || 0x9f < s[1]) then 0
      else if s[0] != 0xe0 && s[0] != 0xed && !Tail(s[1]) then 0
      else 3
    else if 0xf0 <= s[0] <= 0xf4 then
      if |s| < 4 || !Tail(s[2]) || !Tail(s[3]) then 0
      else if s[0] == 0xf0 && (s[1] < 0x90 || 0xbf < s[1]) then 0
      else if s[0] == 0xf4 && (s[1] < 0x80 || 0x8f < s[1]) then 0
      else if s[0] != 0xf0 && s[0] != 0xf4 && !Tail(s[1]) then 0
      else 4
    else 0
  }

  /** The code point a well-formed character stands for. */
  function CodePoint(s: seq<Byte>): nat
    requires 0 < RawLength(s)
  {
    var n := RawLength(s);
    var a: nat := s[0];
    if n == 1 then a
    else
      var b: nat := s[1] - 0x80;
      if n == 2 then (a - 0xc0) * 0x40 + b
      else
        var c: nat := s[2] - 0x80;
        if n == 3 then (a - 0xe0) * 0x1000 + b * 0x40 + c
        else
          var d: nat := s[3] - 0x80;
          (a - 0xf0) * 0x4_0000 + b * 0x1000 + c * 0x40 + d
  }

  /** The byte ranges tested one by one are exactly the encodings of scalar values. */
  lemma RawLengthIsEncoding(s: seq<Byte>)
    requires 0 < RawLength(s)
    ensures Scalar(CodePoint(s)) && Encode(CodePoint(s)) == s[..RawLength(s)]
  {
    var n, cp := RawLength(s), CodePoint(s);
    var a: nat := s[0];
    if n == 2 {
      Base64Digits(0, 0, a - 0xc0, s[1] - 0x80);
    } else if n == 3 {
      Base64Digits(0, a - 0xe0, s[1] - 0x80, s[2] - 0x80);
    } else if n == 4 {
      Base64Digits(a - 0xf0, s[1] - 0x80, s[2] - 0x80, s[3] - 0x80);
    }
  }

  /** Numbers written in base 64. */
  lemma Base64Digits(a: nat, b: nat, c: nat, d: nat)
    requires b < 0x40 && c < 0x40 && d < 0x40
    ensures var n := a * 0x4_0000 + b * 0x1000 + c * 0x40 + d;
            n / 0x4_0000 == a && n / 0x1000 % 0x40 == b && n / 0x40 % 0x40 == c && n % 0x40 == d
  {
    var n := a * 0x4_0000 + b * 0x1000 + c * 0x40 + d;
    assert n / 0x40 == a * 0x1000 + b * 0x40 + c;
    assert n / 0x1000 == a * 0x40 + b;
  }

  lemma EncodingHasRawLength(cp: nat, rest: seq<Byte>)
    requires Scalar(cp)
    ensures RawLength(Encode(cp) + rest) == |Encode(cp)| && CodePoint(Encode(cp) + rest) == cp
  {
    var s := Encode(cp) + rest;
    if 0xffff < cp {
      assert cp / 0x4_0000 == cp / 0x1000 / 0x40;
      assert cp / 0x1000 == cp / 0x40 / 0x40;
    } else if 0x7ff < cp {
      assert cp / 0x1000 == cp / 0x40 / 0x40;
    }
  }

  /** Text made of encoded characters. */
  ghost predicate WellFormed(s: seq<Byte>)
    decreases |s|
  {
    s == [] || (0 < RawLength(s) && WellFormed(s[RawLength(s)..]))
  }

  lemma {:induction false} WellFormedAppend(s: seq<Byte>, t: seq<Byte>)
    requires WellFormed(s) && WellFormed(t)
    ensures WellFormed(s + t)
    decreases |s|
  {
    hide RawLength;
    if s == [] {
      assert s + t == t;
    } else {
      var n := RawLength(s);
      SameFront(s, t);
      assert (s + t)[n..] == s[n..] + t;
      WellFormedAppend(s[n..], t);
    }
  }

  /** Only the character itself decides its length. */
  lemma SameFront(s: seq<Byte>, t: seq<Byte>)
    requires 0 < RawLength(s)
    ensures RawLength(s + t) == RawLength(s)
    ensures RawLength(s[..RawLength(s)]) == RawLength(s)
  {
    var n := RawLength(s);
    assert forall i | 0 <= i < |s| :: (s + t)[i] == s[i];
    assert forall i | 0 <= i < n :: s[..n][i] == s[i];
  }

  lemma OneCharacter(s: seq<Byte>)
    requires 0 < RawLength(s)
    ensures WellFormed(s[..RawLength(s)])
  {
    SameFront(s, []);
    var c := s[..RawLength(s)];
    assert c[RawLength(c)..] == [];
  }

  /** The shorter test used when text is already known to be well formed. */
  function LeadLength(s: seq<Byte>): nat
    requires s != []
  {
    var n := if s[0] < 0x80 then 1 else if s[0] < 0xe0 then 2 else if s[0] < 0xf0 then 3 else 4;
    if n <= |s| then n else 0
  }

  lemma LeadLengthIsRawLength(s: seq<Byte>)
    requires s != [] && 0 < RawLength(s)
    ensures LeadLength(s) == RawLength(s)
  {
  }
}
