/** Reading white space, strings and numbers off the front of a text, against their grammar
    (ds4_skip_space, ds4_parse_hex4, ds4_parse_string and ds4_parse_number in
    ds4_crawl_grounding.c). */
module JsonLexis {
  import opened Bytes
  import Utf8
  import opened JsonGrammar

  // ------------------------------------------------------------------------------
  // White space
  // ------------------------------------------------------------------------------

  /** How many white space characters there are at the front. */
  function SpaceRun(b: seq<Byte>): (n: nat)
    ensures n <= |b| && (n < |b| ==> !Space(b[n]))
  {
    if b == [] || !Space(b[0]) then 0 else 1 + SpaceRun(b[1..])
  }

  function Skip(b: seq<Byte>): (r: seq<Byte>)
    ensures |r| <= |b| && (r != [] ==> !Space(r[0]))
  {
    b[SpaceRun(b)..]
  }

  lemma {:induction false} SpaceRunIs(b: seq<Byte>)
    ensures AllSpace(b[..SpaceRun(b)]) && b == b[..SpaceRun(b)] + Skip(b)
  {
    if b != [] && Space(b[0]) {
      SpaceRunIs(b[1..]);
      assert b[..SpaceRun(b)] == [b[0]] + b[1..][..SpaceRun(b[1..])];
    }
  }

  /** White space ends where something else begins. */
  lemma {:induction false} SkipsSpace(s: seq<Byte>, rest: seq<Byte>)
    requires AllSpace(s) && (rest == [] || !Space(rest[0]))
    ensures SpaceRun(s + rest) == |s| && Skip(s + rest) == rest
  {
    if s == [] {
      assert s + rest == rest;
    } else {
      assert (s + rest)[1..] == s[1..] + rest;
      SkipsSpace(s[1..], rest);
    }
  }

  // ------------------------------------------------------------------------------
  // Strings
  // ------------------------------------------------------------------------------

  predicate StartsWithHex(b: seq<Byte>) {
    4 <= |b| && Hex4(b[..4])
  }

  /** The character after a backslash and `u`, which are already read. */
  function TakeUnicode(b: seq<Byte>): Read<Unit> {
    if !StartsWithHex(b) then Short
    else
      var v := HexValue(b[..4]);
      if 0xd800 <= v <= 0xdbff then
        if |b| < 10 || b[4] != BACKSLASH || b[5] != LETTER_U || !StartsWithHex(b[6..]) then Short
        else if HexValue(b[6..10]) < 0xdc00 || 0xdfff < HexValue(b[6..10]) then Short
        else Got(Pair(b[..4], b[6..10]), b[10..])
      else if 0xdc00 <= v <= 0xdfff then Short
      else Got(Hex(b[..4]), b[4..])
  }

  function TakeUnit(b: seq<Byte>): (r: Read<Unit>)
    requires b != []
    ensures r.Got? ==> |r.rest| < |b|
  {
    if b[0] < 0x20 then Short
    else if b[0] == BACKSLASH then
      if |b| < 2 then Short
      else if SimpleEscape(b[1]) then Got(Escape(b[1]), b[2..])
      else if b[1] == LETTER_U then TakeUnicode(b[2..])
      else Short
    else
      var n := Utf8.RawLength(b);
      if n == 0 then Short else Got(Plain(b[..n]), b[n..])
  }

  function TakeUnits(b: seq<Byte>): (r: Read<seq<Unit>>)
    ensures r.Got? ==> |r.rest| < |b|
    decreases |b|
  {
    if b == [] then Short
    else if b[0] == QUOTE then Got([], b[1..])
    else
      match TakeUnit(b)
      case Short => Short
      case Got(u, rest) =>
        match TakeUnits(rest)
        case Short => Short
        case Got(us, end) => Got([u] + us, end)
  }

  function TakeString(b: seq<Byte>): (r: Read<seq<Unit>>)
    ensures r.Got? ==> |r.rest| < |b|
  {
    if b == [] || b[0] != QUOTE then Short else TakeUnits(b[1..])
  }

  lemma TakeUnitSound(b: seq<Byte>)
    requires b != [] && b[0] != QUOTE && TakeUnit(b).Got?
    ensures UnitOk(TakeUnit(b).value) && b == RenderUnit(TakeUnit(b).value) + TakeUnit(b).rest
  {
    hide HexValue, Utf8.RawLength;
    if b[0] == BACKSLASH {
      assert b == [BACKSLASH, b[1]] + b[2..];
      if !SimpleEscape(b[1]) {
        var c := b[2..];
        assert c == c[..4] + c[4..];
        if TakeUnit(b).value.Pair? {
          assert c[6..][..4] == c[6..10];
          assert c[4..] == [BACKSLASH, LETTER_U] + c[6..10] + c[10..];
        }
      }
    } else {
      var n := Utf8.RawLength(b);
      Utf8.SameFront(b, []);
      assert b == b[..n] + b[n..];
    }
  }

  lemma HexComplete(d: seq<Byte>, rest: seq<Byte>)
    requires UnitOk(Hex(d))
    ensures TakeUnicode(d + rest) == Got(Hex(d), rest)
  {
    hide HexValue, IsHexDigit;
    assert (d + rest)[..4] == d && (d + rest)[4..] == rest;
  }

  lemma PairComplete(h: seq<Byte>, l: seq<Byte>, rest: seq<Byte>)
    requires UnitOk(Pair(h, l))
    ensures TakeUnicode(h + ([BACKSLASH, LETTER_U] + (l + rest))) == Got(Pair(h, l), rest)
  {
    hide HexValue, IsHexDigit;
    var c := h + ([BACKSLASH, LETTER_U] + (l + rest));
    assert c[..4] == h && c[6..] == l + rest && c[6..10] == l && c[10..] == rest;
    assert c[6..][..4] == l;
  }

  lemma TakeUnitComplete(u: Unit, rest: seq<Byte>)
    requires UnitOk(u)
    ensures var b := RenderUnit(u) + rest;
            b != [] && b[0] != QUOTE && TakeUnit(b) == Got(u, rest)
  {
    hide HexValue, IsHexDigit, Utf8.RawLength, TakeUnicode;
    var b := RenderUnit(u) + rest;
    match u
    case Plain(t) =>
      Utf8.SameFront(t, rest);
      assert b[..|t|] == t && b[|t|..] == rest;
    case Escape(m) =>
      assert b[2..] == rest;
    case Hex(d) =>
      assert b[2..] == d + rest;
      HexComplete(d, rest);
    case Pair(h, l) =>
      assert b[2..] == h + ([BACKSLASH, LETTER_U] + (l + rest));
      PairComplete(h, l, rest);
  }

  lemma {:induction false} TakeUnitsSound(b: seq<Byte>)
    requires TakeUnits(b).Got?
    ensures UnitsOk(TakeUnits(b).value) && b == RenderUnits(TakeUnits(b).value) + [QUOTE] + TakeUnits(b).rest
    decreases |b|
  {
    hide UnitOk, RenderUnit, TakeUnit;
    if b[0] == QUOTE {
      assert b == [QUOTE] + b[1..];
    } else {
      TakeUnitSound(b);
      var u, rest := TakeUnit(b).value, TakeUnit(b).rest;
      TakeUnitsSound(rest);
      var us := TakeUnits(rest).value;
      assert ([u] + us)[1..] == us;
    }
  }

  lemma {:induction false} TakeUnitsComplete(us: seq<Unit>, rest: seq<Byte>)
    requires UnitsOk(us)
    ensures TakeUnits(RenderUnits(us) + [QUOTE] + rest) == Got(us, rest)
  {
    hide UnitOk, RenderUnit, TakeUnit;
    var b := RenderUnits(us) + [QUOTE] + rest;
    if us == [] {
      assert b[1..] == rest;
    } else {
      var tail := RenderUnits(us[1..]) + [QUOTE] + rest;
      assert b == RenderUnit(us[0]) + tail;
      TakeUnitComplete(us[0], tail);
      TakeUnitsComplete(us[1..], rest);
      assert us == [us[0]] + us[1..];
    }
  }

  lemma TakeStringSound(b: seq<Byte>)
    requires TakeString(b).Got?
    ensures UnitsOk(TakeString(b).value) && b == RenderString(TakeString(b).value) + TakeString(b).rest
  {
    hide RenderUnits, TakeUnits;
    TakeUnitsSound(b[1..]);
    assert b == [QUOTE] + b[1..];
  }

  lemma TakeStringComplete(us: seq<Unit>, rest: seq<Byte>)
    requires UnitsOk(us)
    ensures TakeString(RenderString(us) + rest) == Got(us, rest)
  {
    hide RenderUnits, TakeUnits;
    TakeUnitsComplete(us, rest);
    assert (RenderString(us) + rest)[1..] == RenderUnits(us) + [QUOTE] + rest;
  }

  // ------------------------------------------------------------------------------
  // Numbers
  // ------------------------------------------------------------------------------

  function DigitRun(b: seq<Byte>): (n: nat)
    ensures n <= |b| && (n < |b| ==> !IsDigit(b[n]))
  {
    if b == [] || !IsDigit(b[0]) then 0 else 1 + DigitRun(b[1..])
  }

  lemma {:induction false} DigitRunIs(b: seq<Byte>)
    ensures AllDigits(b[..DigitRun(b)])
    ensures DigitRun(b) > 0 <==> b != [] && IsDigit(b[0])
  {
    if b != [] && IsDigit(b[0]) {
      DigitRunIs(b[1..]);
      assert b[..DigitRun(b)] == [b[0]] + b[1..][..DigitRun(b[1..])];
    }
  }

  lemma {:induction false} RunsOverDigits(s: seq<Byte>, rest: seq<Byte>)
    requires AllDigits(s) && (rest == [] || !IsDigit(rest[0]))
    ensures DigitRun(s + rest) == |s|
  {
    if s == [] {
      assert s + rest == rest;
    } else {
      assert (s + rest)[1..] == s[1..] + rest;
      RunsOverDigits(s[1..], rest);
    }
  }

  function TakeWhole(b: seq<Byte>): Read<seq<Byte>> {
    if b == [] then Short
    else if b[0] == ZERO then Got([ZERO], b[1..])
    else
      var n := DigitRun(b);
      if n == 0 then Short else Got(b[..n], b[n..])
  }

  function TakeFraction(b: seq<Byte>): Read<seq<Byte>> {
    if b == [] || b[0] != DOT then Got([], b)
    else
      var n := DigitRun(b[1..]);
      if n == 0 then Short else Got(b[..1 + n], b[1 + n..])
  }

  function TakeExponent(b: seq<Byte>): Read<seq<Byte>> {
    if b == [] || !IsE(b[0]) then Got([], b)
    else
      var k := if 1 < |b| && IsSign(b[1]) then 2 else 1;
      var n := DigitRun(b[k..]);
      if n == 0 then Short else Got(b[..k + n], b[k + n..])
  }

  function TakeNumber(b: seq<Byte>): Read<Number> {
    if b != [] && b[0] == MINUS then TakeMagnitude(true, b[1..]) else TakeMagnitude(false, b)
  }

  function TakeMagnitude(minus: bool, b: seq<Byte>): Read<Number> {
    match TakeWhole(b)
    case Short => Short
    case Got(whole, b1) =>
      match TakeFraction(b1)
      case Short => Short
      case Got(fraction, b2) =>
        match TakeExponent(b2)
        case Short => Short
        case Got(exponent, rest) => Got(Number(minus, whole, fraction, exponent), rest)
  }

  /** What may follow a number without being taken for more of it. */
  predicate EndsNumber(rest: seq<Byte>) {
    rest == [] || (!IsDigit(rest[0]) && rest[0] != DOT && !IsE(rest[0]))
  }

  lemma WholeSound(b: seq<Byte>)
    requires TakeWhole(b).Got?
    ensures WholeOk(TakeWhole(b).value) && b == TakeWhole(b).value + TakeWhole(b).rest
  {
    DigitRunIs(b);
    assert b == b[..DigitRun(b)] + b[DigitRun(b)..];
    assert b == [b[0]] + b[1..];
  }

  lemma FractionSound(b: seq<Byte>)
    requires TakeFraction(b).Got?
    ensures FractionOk(TakeFraction(b).value) && b == TakeFraction(b).value + TakeFraction(b).rest
  {
    if b != [] && b[0] == DOT {
      DigitRunIs(b[1..]);
      var n := DigitRun(b[1..]);
      assert b[..1 + n][1..] == b[1..][..n];
    }
  }

  lemma ExponentSound(b: seq<Byte>)
    requires TakeExponent(b).Got?
    ensures ExponentOk(TakeExponent(b).value) && b == TakeExponent(b).value + TakeExponent(b).rest
  {
    if b != [] && IsE(b[0]) {
      var k := if 1 < |b| && IsSign(b[1]) then 2 else 1;
      DigitRunIs(b[k..]);
      var n := DigitRun(b[k..]);
      assert b[..k + n][k..] == b[k..][..n];
      assert k == 1 ==> !IsSign(b[1]);
    }
  }

  lemma MagnitudeSound(minus: bool, b: seq<Byte>)
    requires TakeMagnitude(minus, b).Got?
    ensures var n := TakeMagnitude(minus, b).value;
            NumberOk(n) && n.minus == minus && b == n.whole + (n.fraction + n.exponent) + TakeMagnitude(minus, b).rest
  {
    hide TakeWhole, TakeFraction, TakeExponent, WholeOk, FractionOk, ExponentOk;
    WholeSound(b);
    var b1 := TakeWhole(b).rest;
    FractionSound(b1);
    var b2 := TakeFraction(b1).rest;
    ExponentSound(b2);
    var w, f, e, rest := TakeWhole(b).value, TakeFraction(b1).value, TakeExponent(b2).value, TakeExponent(b2).rest;
    assert w + (f + (e + rest)) == w + (f + e) + rest;
  }

  lemma TakeNumberSound(b: seq<Byte>)
    requires b != [] && TakeNumber(b).Got?
    ensures NumberOk(TakeNumber(b).value) && b == RenderNumber(TakeNumber(b).value) + TakeNumber(b).rest
  {
    hide TakeMagnitude, NumberOk;
    if b[0] == MINUS {
      MagnitudeSound(true, b[1..]);
      assert b == [MINUS] + b[1..];
    } else {
      MagnitudeSound(false, b);
    }
  }

  lemma WholeComplete(w: seq<Byte>, rest: seq<Byte>)
    requires WholeOk(w) && (rest == [] || !IsDigit(rest[0]))
    ensures TakeWhole(w + rest) == Got(w, rest) && IsDigit((w + rest)[0])
  {
    var b := w + rest;
    if w == [ZERO] {
      assert b[1..] == rest;
    } else {
      assert w[0] in w && IsDigit(w[0]);
      RunsOverDigits(w, rest);
    }
  }

  lemma FractionComplete(f: seq<Byte>, rest: seq<Byte>)
    requires FractionOk(f) && (rest == [] || !IsDigit(rest[0])) && (rest == [] || rest[0] != DOT)
    ensures TakeFraction(f + rest) == Got(f, rest)
  {
    if f == [] {
      assert f + rest == rest;
    } else {
      assert (f + rest)[1..] == f[1..] + rest;
      RunsOverDigits(f[1..], rest);
    }
  }

  lemma ExponentComplete(e: seq<Byte>, rest: seq<Byte>)
    requires ExponentOk(e) && (rest == [] || (!IsDigit(rest[0]) && !IsE(rest[0])))
    ensures TakeExponent(e + rest) == Got(e, rest)
  {
    if e == [] {
      assert e + rest == rest;
    } else {
      var k := if IsSign(e[1]) then 2 else 1;
      assert (e + rest)[k..] == e[k..] + rest;
      RunsOverDigits(e[k..], rest);
    }
  }

  lemma TakeNumberComplete(n: Number, rest: seq<Byte>)
    requires NumberOk(n) && EndsNumber(rest)
    ensures TakeNumber(RenderNumber(n) + rest) == Got(n, rest)
  {
    hide TakeWhole, TakeFraction, TakeExponent, WholeOk;
    var t2 := n.exponent + rest;
    var t1 := n.fraction + t2;
    var b := RenderNumber(n) + rest;
    ExponentComplete(n.exponent, rest);
    FractionComplete(n.fraction, t2);
    WholeComplete(n.whole, t1);
    assert n.minus ==> b[1..] == n.whole + t1;
    assert !n.minus ==> b == n.whole + t1;
    assert TakeMagnitude(n.minus, n.whole + t1) == Got(n, rest);
  }
}
