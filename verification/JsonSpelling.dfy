/** What the characters of a JSON string mean: every way to spell a code point, by section 7 of
    RFC 8259, is read as its UTF-8 encoding (ds4_parse_string, ds4_parse_hex4 and
    ds4_append_codepoint in ds4_crawl_grounding.c). */
module JsonSpelling {
  import opened Bytes
  import Utf8
  import opened JsonGrammar
  import opened JsonLexis

  const LOWER := "0123456789abcdef"
  const UPPER := "0123456789ABCDEF"

  /** The digit of value `n`, in either case. */
  predicate SpellsDigit(b: Byte, n: nat) {
    n < 16 && (b == LOWER[n] as int || b == UPPER[n] as int)
  }

  /** The four hexadecimal digits of `v`, the highest first. */
  predicate SpellsHex(d: seq<Byte>, v: nat) {
    && |d| == 4
    && SpellsDigit(d[0], v / 0x1000) && SpellsDigit(d[1], v / 0x100 % 16)
    && SpellsDigit(d[2], v / 0x10 % 16) && SpellsDigit(d[3], v % 16)
  }

  /** The code points with an escape letter of their own, and that letter. */
  const LETTERS: map<nat, char> :=
    map[0x22 := '"', 0x5c := '\\', 0x2f := '/', 8 := 'b', 12 := 'f', 10 := 'n', 13 := 'r', 9 := 't']

  predicate SpellsUnicode(s: seq<Byte>, v: nat) {
    |s| == 6 && s[0] == '\\' as int && s[1] == 'u' as int && SpellsHex(s[2..], v)
  }

  /** The bytes stand for the code point: itself, by its letter, by its number, or by the numbers
      of its two surrogates. */
  predicate SpellsPoint(s: seq<Byte>, cp: nat) {
    || (Utf8.Scalar(cp) && 0x20 <= cp && cp != '"' as int && cp != '\\' as int && s == Utf8.Encode(cp))
    || (cp in LETTERS && s == ['\\' as int, LETTERS[cp] as int])
    || (Utf8.Scalar(cp) && cp < 0x1_0000 && SpellsUnicode(s, cp))
    || (&& 0x1_0000 <= cp < 0x11_0000 && |s| == 12
        && SpellsUnicode(s[..6], 0xd800 + (cp - 0x1_0000) / 0x400)
        && SpellsUnicode(s[6..], 0xdc00 + (cp - 0x1_0000) % 0x400))
  }

  // ------------------------------------------------------------------------------
  // Hexadecimal digits
  // ------------------------------------------------------------------------------

  lemma DigitIsRead(b: Byte, n: nat)
    ensures SpellsDigit(b, n) <==> IsHexDigit(b) && HexDigit(b) == n
    ensures IsHexDigit(b) ==> HexDigit(b) < 16
  {
    if IsHexDigit(b) {
      var k := HexDigit(b);
      assert k < 10 ==> LOWER[k] as int == 0x30 + k;
      assert 10 <= k ==> LOWER[k] as int == 0x61 + k - 10 && UPPER[k] as int == 0x41 + k - 10;
    }
    if SpellsDigit(b, n) {
      assert n < 10 ==> LOWER[n] as int == UPPER[n] as int == 0x30 + n;
      assert 10 <= n ==> LOWER[n] as int == 0x61 + n - 10 && UPPER[n] as int == 0x41 + n - 10;
    }
  }

  lemma HexIsRead(d: seq<Byte>, v: nat)
    ensures SpellsHex(d, v) <==> Hex4(d) && HexValue(d) == v
  {
    hide SpellsDigit, IsHexDigit, HexDigit;
    if |d| == 4 {
      DigitIsRead(d[0], v / 0x1000);
      DigitIsRead(d[1], v / 0x100 % 16);
      DigitIsRead(d[2], v / 0x10 % 16);
      DigitIsRead(d[3], v % 16);
      if Hex4(d) {
        forall k | 0 <= k < 4 ensures HexDigit(d[k]) < 16 {
          DigitIsRead(d[k], 0);
        }
        Base16Digits(v, HexDigit(d[0]), HexDigit(d[1]), HexDigit(d[2]), HexDigit(d[3]));
      }
    }
  }

  /** A number and its four digits in base 16. */
  lemma Base16Digits(v: nat, a: nat, b: nat, c: nat, d: nat)
    requires a < 16 && b < 16 && c < 16 && d < 16
    ensures v == ((a * 16 + b) * 16 + c) * 16 + d <==>
            v / 0x1000 == a && v / 0x100 % 16 == b && v / 0x10 % 16 == c && v % 16 == d
  {
    var x, y := v / 0x10, v / 0x100;
    assert v / 0x100 == x / 0x10 && v / 0x1000 == y / 0x10;
  }

  // ------------------------------------------------------------------------------
  // Characters
  // ------------------------------------------------------------------------------

  /** A character of the grammar that is spelled so and means the code point. */
  ghost predicate Means(u: Unit, s: seq<Byte>, cp: nat) {
    && Utf8.Scalar(cp) && UnitOk(u) && RenderUnit(u) == s
    && DecodeUnit(u) == (if cp == 0 then [] else Utf8.Encode(cp)) && (IsNul(u) <==> cp == 0)
  }

  /** The number of a code point outside the basic plane, from its two surrogates. */
  lemma Surrogates(cp: nat, high: nat, low: nat)
    requires 0xd800 <= high <= 0xdbff && 0xdc00 <= low <= 0xdfff
    ensures 0x1_0000 <= cp && high == 0xd800 + (cp - 0x1_0000) / 0x400 && low == 0xdc00 + (cp - 0x1_0000) % 0x400 <==>
            cp == 0x1_0000 + (high - 0xd800) * 0x400 + (low - 0xdc00)
  {
  }

  /** Whatever is spelled is a character of the grammar, and means the code point. */
  lemma SpellingIsRead(s: seq<Byte>, cp: nat) returns (u: Unit)
    requires SpellsPoint(s, cp)
    ensures Means(u, s, cp)
  {
    hide Means, SpellsHex;
    if Utf8.Scalar(cp) && 0x20 <= cp && cp != '"' as int && cp != '\\' as int && s == Utf8.Encode(cp) {
      u := Plain(s);
      PlainIsRead(s, cp);
    } else if cp in LETTERS && s == ['\\' as int, LETTERS[cp] as int] {
      u := Escape(s[1]);
      LetterIsRead(cp);
    } else if Utf8.Scalar(cp) && cp < 0x1_0000 {
      u := Hex(s[2..]);
      HexMeans(s, cp);
    } else {
      u := Pair(s[2..6], s[8..]);
      PairMeans(s, cp);
    }
  }

  lemma HexMeans(s: seq<Byte>, cp: nat)
    requires Utf8.Scalar(cp) && cp < 0x1_0000 && SpellsUnicode(s, cp)
    ensures Means(Hex(s[2..]), s, cp)
  {
    hide SpellsHex, HexValue, Hex4, Utf8.Encode;
    HexIsRead(s[2..], cp);
    assert s == s[..2] + s[2..];
  }

  lemma PairMeans(s: seq<Byte>, cp: nat)
    requires 0x1_0000 <= cp < 0x11_0000 && |s| == 12
    requires SpellsUnicode(s[..6], 0xd800 + (cp - 0x1_0000) / 0x400)
    requires SpellsUnicode(s[6..], 0xdc00 + (cp - 0x1_0000) % 0x400)
    ensures Means(Pair(s[2..6], s[8..]), s, cp)
  {
    hide SpellsHex, HexValue, Hex4, Utf8.Encode;
    assert s[..6][2..] == s[2..6] && s[6..][2..] == s[8..];
    HexIsRead(s[2..6], 0xd800 + (cp - 0x1_0000) / 0x400);
    HexIsRead(s[8..], 0xdc00 + (cp - 0x1_0000) % 0x400);
    Surrogates(cp, HexValue(s[2..6]), HexValue(s[8..]));
    assert s == [BACKSLASH, LETTER_U] + s[2..6] + ([BACKSLASH, LETTER_U] + s[8..]) by {
      assert s[..6][0] == s[0] && s[..6][1] == s[1] && s[6..][0] == s[6] && s[6..][1] == s[7];
    }
  }

  lemma PlainIsRead(s: seq<Byte>, cp: nat)
    requires Utf8.Scalar(cp) && 0x20 <= cp && cp != '"' as int && cp != '\\' as int && s == Utf8.Encode(cp)
    ensures Means(Plain(s), s, cp)
  {
    Utf8.EncodingHasRawLength(cp, []);
    assert s + [] == s;
  }

  lemma LetterIsRead(cp: nat)
    requires cp in LETTERS
    ensures Means(Escape(LETTERS[cp] as int), ['\\' as int, LETTERS[cp] as int], cp)
  {
  }

  /** Every character of the grammar is spelled for some code point. */
  lemma CharacterIsSpelled(u: Unit) returns (cp: nat)
    requires UnitOk(u)
    ensures SpellsPoint(RenderUnit(u), cp) && Means(u, RenderUnit(u), cp)
  {
    hide SpellsHex, HexValue, IsHexDigit, Utf8.RawLength, Utf8.Encode;
    var s := RenderUnit(u);
    match u
    case Plain(t) =>
      Utf8.RawLengthIsEncoding(t);
      assert t[..|t|] == t;
      cp := Utf8.CodePoint(t);
      PlainIsSpelled(t);
    case Escape(m) =>
      cp := Unescape(m);
      LetterIsRead(cp);
    case Hex(d) =>
      cp := HexValue(d);
      HexIsRead(d, cp);
      assert s[2..] == d;
    case Pair(h, l) =>
      cp := 0x1_0000 + (HexValue(h) - 0xd800) * 0x400 + (HexValue(l) - 0xdc00);
      Surrogates(cp, HexValue(h), HexValue(l));
      HexIsRead(h, HexValue(h));
      HexIsRead(l, HexValue(l));
      assert |h| == |l| == 4;
      assert s[..6][2..] == h && s[6..][2..] == l;
  }

  lemma PlainIsSpelled(t: seq<Byte>)
    requires UnitOk(Plain(t))
    ensures var cp := Utf8.CodePoint(t); 0x20 <= cp && cp != '"' as int && cp != '\\' as int
  {
  }

  // ------------------------------------------------------------------------------
  // Strings
  // ------------------------------------------------------------------------------

  function Concat(parts: seq<seq<Byte>>): seq<Byte> {
    if parts == [] then [] else parts[0] + Concat(parts[1..])
  }

  /** The text of some code points, of which NUL leaves nothing. */
  function EncodeAll(cps: seq<nat>): seq<Byte>
    requires forall cp | cp in cps :: Utf8.Scalar(cp)
  {
    if cps == [] then [] else (if cps[0] == 0 then [] else Utf8.Encode(cps[0])) + EncodeAll(cps[1..])
  }

  ghost predicate SpellsAll(parts: seq<seq<Byte>>, cps: seq<nat>) {
    |parts| == |cps| && forall i | 0 <= i < |cps| :: SpellsPoint(parts[i], cps[i])
  }

  lemma SpelledIsScalar(s: seq<Byte>, cp: nat)
    requires SpellsPoint(s, cp)
    ensures Utf8.Scalar(cp)
  {
  }

  lemma {:induction false} SpellingsAreRead(parts: seq<seq<Byte>>, cps: seq<nat>) returns (us: seq<Unit>)
    requires SpellsAll(parts, cps)
    ensures forall cp | cp in cps :: Utf8.Scalar(cp)
    ensures UnitsOk(us) && RenderUnits(us) == Concat(parts)
    ensures DecodeUnits(us) == Text(EncodeAll(cps), 0 in cps)
  {
    hide SpellsPoint, UnitOk, DecodeUnit, RenderUnit, IsNul, Utf8.Encode;
    if cps == [] {
      us := [];
    } else {
      var rest := SpellingsAreRead(parts[1..], cps[1..]);
      SpelledIsScalar(parts[0], cps[0]);
      var u := SpellingIsRead(parts[0], cps[0]);
      us := [u] + rest;
      assert us[1..] == rest && cps == [cps[0]] + cps[1..];
    }
  }

  /** A string is read as the text of the code points it spells, however each is spelled. */
  lemma StringIsRead(parts: seq<seq<Byte>>, cps: seq<nat>, rest: seq<Byte>)
    requires SpellsAll(parts, cps)
    ensures forall cp | cp in cps :: Utf8.Scalar(cp)
    ensures var r := TakeString(['"' as int] + Concat(parts) + ['"' as int] + rest);
            r.Got? && r.rest == rest && UnitsOk(r.value) && DecodeUnits(r.value) == Text(EncodeAll(cps), 0 in cps)
  {
    hide RenderUnits, DecodeUnits, TakeString, UnitsOk;
    var us := SpellingsAreRead(parts, cps);
    TakeStringComplete(us, rest);
    assert RenderString(us) + rest == ['"' as int] + Concat(parts) + ['"' as int] + rest;
  }

  /** Nothing else is read as a string. */
  lemma {:induction false} UnitsAreSpelled(us: seq<Unit>) returns (parts: seq<seq<Byte>>, cps: seq<nat>)
    requires UnitsOk(us)
    ensures SpellsAll(parts, cps) && Concat(parts) == RenderUnits(us)
  {
    hide SpellsPoint, UnitOk, RenderUnit;
    if us == [] {
      parts, cps := [], [];
    } else {
      parts, cps := UnitsAreSpelled(us[1..]);
      var cp := CharacterIsSpelled(us[0]);
      assert ([RenderUnit(us[0])] + parts)[1..] == parts;
      parts, cps := [RenderUnit(us[0])] + parts, [cp] + cps;
    }
  }

  lemma StringIsSpelled(b: seq<Byte>) returns (parts: seq<seq<Byte>>, cps: seq<nat>)
    requires TakeString(b).Got?
    ensures SpellsAll(parts, cps)
    ensures b == ['"' as int] + Concat(parts) + ['"' as int] + TakeString(b).rest
  {
    hide TakeString, RenderUnits, UnitsOk;
    TakeStringSound(b);
    parts, cps := UnitsAreSpelled(TakeString(b).value);
    assert RenderString(TakeString(b).value) == ['"' as int] + Concat(parts) + ['"' as int];
  }

  // ------------------------------------------------------------------------------
  // The other bytes of the grammar
  // ------------------------------------------------------------------------------

  lemma TokensAreSpelled(b: Byte)
    ensures TRUE == Ascii("true") && FALSE == Ascii("false") && NULL == Ascii("null")
    ensures [OPEN_BRACE, CLOSE_BRACE, OPEN_BRACKET, CLOSE_BRACKET, COLON, COMMA, QUOTE, BACKSLASH] == Ascii("{}[]:,\"\\")
    ensures [MINUS, PLUS, DOT, ZERO, NINE] == Ascii("-+.09")
    ensures Space(b) <==> b in Ascii(" \t\n\r")
    ensures IsE(b) <==> b in Ascii("eE")
  {
    assert Ascii(" \t\n\r") == [0x20, 0x09, 0x0a, 0x0d] && Ascii("eE") == [0x65, 0x45];
  }
}
