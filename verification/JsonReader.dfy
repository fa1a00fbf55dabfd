/** The recursive-descent parser over a moving cursor (ds4_parse_string to ds4_parse_value in
    ds4_crawl_grounding.c). */
module JsonReader {
  import opened Wrappers
  import opened Bytes
  import Utf8
  import opened JsonGrammar
  import opened JsonLexis
  import opened JsonParse

  datatype Next = Closed | More | Broken

  class Reader {
    const text: seq<Byte>
    var cur: nat

    ghost predicate Valid()
      reads this`cur
    {
      cur <= |text|
    }

    function Unread(): seq<Byte>
      reads this`cur
      requires Valid()
    {
      text[cur..]
    }

    constructor (text: seq<Byte>)
      ensures Valid() && this.text == text && Unread() == text
    {
      this.text := text;
      cur := 0;
    }

    method SkipSpace()
      requires Valid()
      modifies this`cur
      ensures Valid() && Unread() == Skip(old(Unread()))
    {
      ghost var start := cur;
      while cur < |text| && Space(text[cur])
        invariant Valid() && start <= cur
        invariant Skip(text[start..]) == Skip(text[cur..])
      {
        assert text[cur..][1..] == text[cur + 1..];
        cur := cur + 1;
      }
    }

    method ParseHex4() returns (r: Option<seq<Byte>>)
      requires Valid()
      modifies this`cur
      ensures Valid()
      ensures if StartsWithHex(old(Unread())) then r == Some(old(Unread())[..4]) && Unread() == old(Unread())[4..]
              else r.None?
    {
      if |text| - cur < 4 {
        return None;
      }
      var digits := text[cur..cur + 4];
      assert digits == Unread()[..4];
      var i := 0;
      while i < 4
        invariant 0 <= i <= 4
        invariant forall j | 0 <= j < i :: IsHexDigit(digits[j])
      {
        if !IsHexDigit(digits[i]) {
          return None;
        }
        i := i + 1;
      }
      r := Some(digits);
      assert text[cur..][4..] == text[cur + 4..];
      cur := cur + 4;
    }

    /** The rest of a `\u` escape. */
    method ParseUnicode() returns (bytes: Option<seq<Byte>>, nul: bool)
      requires Valid()
      modifies this`cur
      ensures Valid()
      ensures match TakeUnicode(old(Unread()))
              case Short => bytes.None?
              case Got(u, rest) => UnitOk(u) && bytes == Some(DecodeUnit(u)) && nul == IsNul(u) && Unread() == rest
    {
      hide HexValue, IsHexDigit, Utf8.Encode;
      nul := false;
      ghost var b := Unread();
      var first := ParseHex4();
      if first.None? {
        return None, false;
      }
      var codepoint := HexValue(first.value);
      if 0xd800 <= codepoint <= 0xdbff {
        if |text| - cur < 6 || text[cur] != BACKSLASH || text[cur + 1] != LETTER_U {
          assert b[4..] == Unread();
          return None, false;
        }
        cur := cur + 2;
        assert Unread() == b[6..];
        var second := ParseHex4();
        if second.None? {
          return None, false;
        }
        assert second.value == b[6..10];
        var low := HexValue(second.value);
        if low < 0xdc00 || 0xdfff < low {
          return None, false;
        }
        codepoint := 0x1_0000 + (codepoint - 0xd800) * 0x400 + (low - 0xdc00);
      } else if 0xdc00 <= codepoint <= 0xdfff {
        return None, false;
      }
      if codepoint == 0 {
        return Some([]), true;
      }
      bytes := Some(Utf8.Encode(codepoint));
    }

    /** One character of a string, its first byte already read. */
    method ParseUnit(byte: Byte) returns (bytes: Option<seq<Byte>>, nul: bool)
      requires Valid() && 0 < cur && text[cur - 1] == byte && byte != QUOTE
      modifies this`cur
      ensures Valid()
      ensures match TakeUnit(old(text[cur - 1..]))
              case Short => bytes.None?
              case Got(u, rest) => UnitOk(u) && bytes == Some(DecodeUnit(u)) && nul == IsNul(u) && Unread() == rest
    {
      hide Utf8.RawLength, TakeUnicode, Utf8.Encode, HexValue;
      ghost var b := text[cur - 1..];
      nul := false;
      if byte < 0x20 {
        return None, false;
      }
      if byte == BACKSLASH {
        if |text| <= cur {
          return None, false;
        }
        var escaped := text[cur];
        cur := cur + 1;
        assert Unread() == b[2..];
        if SimpleEscape(escaped) {
          return Some([Unescape(escaped)]), false;
        }
        if escaped == LETTER_U {
          bytes, nul := ParseUnicode();
          return;
        }
        return None, false;
      }
      var lead := cur - 1;
      var length := Utf8.RawLength(text[lead..]);
      if length == 0 {
        return None, false;
      }
      Utf8.SameFront(b, []);
      bytes := Some(text[lead..lead + length]);
      assert bytes.value == b[..length];
      cur := lead + length;
      assert Unread() == b[length..];
    }

    method ParseString() returns (r: Option<Text>)
      requires Valid()
      modifies this`cur
      ensures Valid()
      ensures match TakeString(old(Unread()))
              case Short => r.None?
              case Got(us, rest) => UnitsOk(us) && r == Some(DecodeUnits(us)) && Unread() == rest
    {
      hide UnitOk, TakeUnit, TakeUnits, DecodeUnit, UnitsOk, IsNul;
      if |text| <= cur || text[cur] != QUOTE {
        return None;
      }
      ghost var b0 := Unread()[1..];
      cur := cur + 1;
      assert Unread() == b0;
      ghost var us: seq<Unit> := [];
      var decoded := Text([], false);
      NoUnits(b0);
      while cur < |text|
        invariant Valid()
        invariant TakeUnits(b0) == PrependUnits(us, TakeUnits(Unread()))
        invariant UnitsOk(us) && decoded == DecodeUnits(us)
        decreases |text| - cur
      {
        ghost var b := Unread();
        UnitStep(us, b);
        var byte := text[cur];
        cur := cur + 1;
        assert b[1..] == Unread();
        if byte == QUOTE {
          return Some(decoded);
        }
        assert text[cur - 1..] == b;
        var bytes, nul := ParseUnit(byte);
        if bytes.None? {
          return None;
        }
        ghost var u := TakeUnit(b).value;
        UnitsAppend(us, u);
        decoded := Text(decoded.bytes + bytes.value, decoded.containsNul || nul);
        us := us + [u];
      }
      UnitsEnd(Unread());
      r := None;
    }

    method SkipDigits()
      requires Valid()
      modifies this`cur
      ensures Valid() && old(cur) <= cur && cur - old(cur) == DigitRun(old(Unread()))
    {
      ghost var start := cur;
      while cur < |text| && IsDigit(text[cur])
        invariant Valid() && start <= cur
        invariant DigitRun(text[start..]) == cur - start + DigitRun(text[cur..])
      {
        assert text[cur..][1..] == text[cur + 1..];
        cur := cur + 1;
      }
    }

    method ParseWhole() returns (ok: bool)
      requires Valid()
      modifies this`cur
      ensures Valid()
      ensures match TakeWhole(old(Unread())) case Short => !ok case Got(_, rest) => ok && Unread() == rest
    {
      if |text| <= cur {
        return false;
      }
      DigitRunIs(Unread());
      if text[cur] == ZERO {
        cur := cur + 1;
      } else if IsDigit(text[cur]) {
        SkipDigits();
      } else {
        return false;
      }
      ok := true;
    }

    method ParseFraction() returns (ok: bool)
      requires Valid()
      modifies this`cur
      ensures Valid()
      ensures match TakeFraction(old(Unread())) case Short => !ok case Got(_, rest) => ok && Unread() == rest
    {
      if cur < |text| && text[cur] == DOT {
        ghost var b := Unread();
        cur := cur + 1;
        assert Unread() == b[1..];
        DigitRunIs(Unread());
        if |text| <= cur || !IsDigit(text[cur]) {
          return false;
        }
        SkipDigits();
      }
      ok := true;
    }

    method ParseExponent() returns (ok: bool)
      requires Valid()
      modifies this`cur
      ensures Valid()
      ensures match TakeExponent(old(Unread())) case Short => !ok case Got(_, rest) => ok && Unread() == rest
    {
      if cur < |text| && IsE(text[cur]) {
        ghost var b := Unread();
        cur := cur + 1;
        if cur < |text| && IsSign(text[cur]) {
          cur := cur + 1;
        }
        ghost var k := if 1 < |b| && IsSign(b[1]) then 2 else 1;
        assert Unread() == b[k..];
        DigitRunIs(Unread());
        if |text| <= cur || !IsDigit(text[cur]) {
          return false;
        }
        SkipDigits();
      }
      ok := true;
    }

    method ParseNumber() returns (ok: bool)
      requires Valid() && Unread() != []
      modifies this`cur
      ensures Valid()
      ensures match TakeNumber(old(Unread())) case Short => !ok case Got(_, rest) => ok && Unread() == rest
    {
      hide TakeWhole, TakeFraction, TakeExponent;
      ghost var b := Unread();
      if cur < |text| && text[cur] == MINUS {
        cur := cur + 1;
        assert Unread() == b[1..];
      }
      ok := ParseWhole();
      if ok {
        ok := ParseFraction();
        if ok {
          ok := ParseExponent();
        }
      }
    }

    method ParseWord(word: seq<Byte>) returns (ok: bool)
      requires Valid()
      modifies this`cur
      ensures Valid()
      ensures match TakeWord(old(Unread()), word) case Short => !ok case Got(_, rest) => ok && Unread() == rest
    {
      if |text| - cur < |word| || text[cur..cur + |word|] != word {
        assert |word| <= |Unread()| ==> Unread()[..|word|] == text[cur..cur + |word|];
        return false;
      }
      assert Unread()[..|word|] == text[cur..cur + |word|];
      cur := cur + |word|;
      ok := true;
    }

    method ParseValue(depth: nat) returns (ok: bool)
      requires Valid()
      modifies this`cur
      ensures Valid()
      ensures match TakeValue(Skip(old(Unread())), depth) case Short => !ok case Got(_, rest) => ok && Unread() == rest
      decreases |text| - cur, 2
    {
      hide TakeArray, TakeObject, TakeStr, TakeNum, TakeWord;
      SkipSpace();
      if |text| <= cur {
        return false;
      }
      var c := text[cur];
      ghost var b := Unread();
      ScalarCases(b);
      if c == OPEN_BRACE {
        ok := ParseObject(depth);
      } else if c == OPEN_BRACKET {
        ok := ParseArray(depth);
      } else if c == QUOTE {
        var decoded := ParseString();
        ok := decoded.Some?;
      } else if c == TRUE[0] {
        ok := ParseWord(TRUE);
      } else if c == FALSE[0] {
        ok := ParseWord(FALSE);
      } else if c == NULL[0] {
        ok := ParseWord(NULL);
      } else if StartsNumber(c) {
        ok := ParseNumber();
      } else {
        ok := false;
      }
    }

    method ParseArray(depth: nat) returns (ok: bool)
      requires Valid() && cur < |text|
      modifies this`cur
      ensures Valid()
      ensures match TakeArray(old(Unread()), depth) case Short => !ok case Got(_, rest) => ok && Unread() == rest
      decreases |text| - cur, 1
    {
      hide TakeItems, SpaceRun, Skip;
      if MAX_DEPTH < depth {
        return false;
      }
      cur := cur + 1;
      assert Unread() == old(Unread())[1..];
      SkipSpace();
      SkipTwice(old(Unread())[1..]);
      ghost var c := Unread();
      if cur < |text| && text[cur] == CLOSE_BRACKET {
        cur := cur + 1;
        assert Unread() == c[1..];
        return true;
      }
      ok := ParseItems(depth + 1);
    }

    /** The items of an array, from the first to the closing bracket. */
    method ParseItems(depth: nat) returns (ok: bool)
      requires Valid() && Skip(Unread()) == Unread()
      modifies this`cur
      ensures Valid()
      ensures RestOf(TakeItems(old(Unread()), depth)) == if ok then Some(Unread()) else None
      decreases |text| - cur, 3
    {
      hide TakeItems, TakeValue, SpaceRun, Skip;
      ghost var start, c := cur, Unread();
      while true
        invariant Valid() && start <= cur && Skip(Unread()) == Unread()
        invariant RestOf(TakeItems(c, depth)) == RestOf(TakeItems(Unread(), depth))
        decreases |text| - cur
      {
        ItemStep(Unread(), depth);
        ok := ParseValue(depth);
        if !ok {
          return false;
        }
        var next := ParseNext(CLOSE_BRACKET);
        if next != More {
          return next == Closed;
        }
      }
    }

    method ParseObject(depth: nat) returns (ok: bool)
      requires Valid() && cur < |text|
      modifies this`cur
      ensures Valid()
      ensures match TakeObject(old(Unread()), depth) case Short => !ok case Got(_, rest) => ok && Unread() == rest
      decreases |text| - cur, 1
    {
      hide TakeMembers, SpaceRun, Skip;
      if MAX_DEPTH < depth {
        return false;
      }
      cur := cur + 1;
      assert Unread() == old(Unread())[1..];
      SkipSpace();
      ghost var c := Unread();
      if cur < |text| && text[cur] == CLOSE_BRACE {
        cur := cur + 1;
        assert Unread() == c[1..];
        return true;
      }
      ok := ParseMembers(depth + 1);
    }

    /** The members of an object, from the first to the closing brace. */
    method ParseMembers(depth: nat) returns (ok: bool)
      requires Valid()
      modifies this`cur
      ensures Valid()
      ensures RestOf(TakeMembers(old(Unread()), depth)) == if ok then Some(Unread()) else None
      decreases |text| - cur, 3
    {
      hide TakeMembers, TakeValue, TakeKey, SpaceRun, Skip;
      ghost var start, c := cur, Unread();
      while true
        invariant Valid() && start <= cur
        invariant RestOf(TakeMembers(c, depth)) == RestOf(TakeMembers(Unread(), depth))
        decreases |text| - cur
      {
        MemberStep(Unread(), depth);
        var key := ParseKey();
        if key.None? {
          return false;
        }
        ok := ParseValue(depth);
        if !ok {
          return false;
        }
        var next := ParseNext(CLOSE_BRACE);
        if next != More {
          return next == Closed;
        }
      }
    }

    /** What comes after an item or member: the end of its container, or a comma and another. */
    method ParseNext(close: Byte) returns (next: Next)
      requires Valid() && close != COMMA
      modifies this`cur
      ensures Valid() && old(cur) <= cur
      ensures var c := Skip(old(Unread()));
              match next
              case Closed => c != [] && c[0] == close && Unread() == c[1..]
              case More => c != [] && c[0] == COMMA && Unread() == Skip(c[1..]) && Skip(Unread()) == Unread() && old(cur) < cur
              case Broken => c == [] || (c[0] != close && c[0] != COMMA)
    {
      hide SpaceRun;
      SkipSpace();
      if |text| <= cur {
        return Broken;
      }
      ghost var c := Unread();
      assert text[cur + 1..] == c[1..];
      if text[cur] == close {
        cur := cur + 1;
        return Closed;
      }
      if text[cur] != COMMA {
        return Broken;
      }
      cur := cur + 1;
      SkipSpace();
      SkipTwice(c[1..]);
      next := More;
    }

    /** A member's name and its colon, up to the value. */
    method ParseKey() returns (r: Option<Text>)
      requires Valid()
      modifies this`cur
      ensures Valid()
      ensures match TakeKey(old(Unread()))
              case Short => r.None?
              case Got(k, rest) =>
                UnitsOk(k.units) && r == Some(DecodeUnits(k.units)) && Unread() == rest && Skip(Unread()) == Unread()
    {
      hide TakeString, SpaceRun, DecodeUnits, UnitsOk;
      r := ParseString();
      if r.None? {
        return;
      }
      SkipSpace();
      if |text| <= cur || text[cur] != COLON {
        return None;
      }
      ghost var d := Unread();
      assert text[cur + 1..] == d[1..];
      cur := cur + 1;
      SkipSpace();
      SkipTwice(d[1..]);
    }
  }

  // ------------------------------------------------------------------------------
  // Steps of the array and object loops
  // ------------------------------------------------------------------------------

  function RestOf<T>(r: Read<T>): Option<seq<Byte>> {
    match r case Short => None case Got(_, rest) => Some(rest)
  }

  lemma SkipTwice(b: seq<Byte>)
    ensures Skip(Skip(b)) == Skip(b)
  {
  }

  lemma ScalarCases(b: seq<Byte>)
    requires b != []
    ensures b[0] == QUOTE ==> RestOf(TakeScalar(b)) == RestOf(TakeString(b))
    ensures b[0] != QUOTE && StartsNumber(b[0]) ==> RestOf(TakeScalar(b)) == RestOf(TakeNumber(b))
  {
    hide TakeString, TakeNumber;
  }

  /** What is left after an item, its white space skipped. */
  function AfterItem(c: seq<Byte>, depth: nat): Option<seq<Byte>> {
    if c == [] then None
    else if c[0] == CLOSE_BRACKET then Some(c[1..])
    else if c[0] != COMMA then None
    else RestOf(TakeItems(Skip(c[1..]), depth))
  }

  function AfterMember(c: seq<Byte>, depth: nat): Option<seq<Byte>> {
    if c == [] then None
    else if c[0] == CLOSE_BRACE then Some(c[1..])
    else if c[0] != COMMA then None
    else RestOf(TakeMembers(Skip(c[1..]), depth))
  }

  /** One turn of the array loop. */
  lemma ItemStep(b: seq<Byte>, depth: nat)
    ensures TakeValue(b, depth).Short? ==> TakeItems(b, depth).Short?
    ensures TakeValue(b, depth).Got? ==> RestOf(TakeItems(b, depth)) == AfterItem(Skip(TakeValue(b, depth).rest), depth)
  {
    hide TakeValue, SpaceRun;
  }

  /** One turn of the object loop. */
  lemma MemberStep(b: seq<Byte>, depth: nat)
    ensures TakeKey(b).Short? ==> TakeMembers(b, depth).Short?
    ensures TakeKey(b).Got? && TakeValue(TakeKey(b).rest, depth).Short? ==> TakeMembers(b, depth).Short?
    ensures TakeKey(b).Got? && TakeValue(TakeKey(b).rest, depth).Got? ==>
              RestOf(TakeMembers(b, depth)) == AfterMember(Skip(TakeValue(TakeKey(b).rest, depth).rest), depth)
  {
    hide TakeKey, TakeValue, SpaceRun;
  }

  // ------------------------------------------------------------------------------
  // Steps of the string loop
  // ------------------------------------------------------------------------------

  function PrependUnits(us: seq<Unit>, r: Read<seq<Unit>>): Read<seq<Unit>> {
    match r case Short => Short case Got(more, rest) => Got(us + more, rest)
  }

  lemma NoUnits(b: seq<Byte>)
    ensures TakeUnits(b) == PrependUnits([], TakeUnits(b)) && UnitsOk([]) && DecodeUnits([]) == Text([], false)
  {
    if TakeUnits(b).Got? {
      assert [] + TakeUnits(b).value == TakeUnits(b).value;
    }
  }

  lemma UnitStep(us: seq<Unit>, b: seq<Byte>)
    requires b != []
    ensures if b[0] == QUOTE then PrependUnits(us, TakeUnits(b)) == Got(us, b[1..])
            else match TakeUnit(b)
                 case Short => TakeUnits(b).Short?
                 case Got(u, rest) => PrependUnits(us, TakeUnits(b)) == PrependUnits(us + [u], TakeUnits(rest))
  {
    hide TakeUnit;
    if b[0] == QUOTE {
      assert us + [] == us;
    } else if TakeUnit(b).Got? {
      var u, rest := TakeUnit(b).value, TakeUnit(b).rest;
      if TakeUnits(rest).Got? {
        assert us + ([u] + TakeUnits(rest).value) == us + [u] + TakeUnits(rest).value;
      }
    }
  }

  lemma UnitsEnd(b: seq<Byte>)
    requires b == []
    ensures TakeUnits(b).Short?
  {
  }

  lemma {:induction false} UnitsAppend(us: seq<Unit>, u: Unit)
    requires UnitsOk(us) && UnitOk(u)
    ensures UnitsOk(us + [u])
    ensures var t := DecodeUnits(us);
            DecodeUnits(us + [u]) == Text(t.bytes + DecodeUnit(u), t.containsNul || IsNul(u))
  {
    hide UnitOk, DecodeUnit, IsNul;
    if us == [] {
      assert us + [u] == [u] && [u][1..] == [];
      assert DecodeUnits([]) == Text([], false);
    } else {
      UnitsAppend(us[1..], u);
      assert (us + [u])[1..] == us[1..] + [u];
    }
  }
}
