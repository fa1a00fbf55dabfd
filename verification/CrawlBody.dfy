/** The bounded JSON printer of the crawl client, and what the crawl parser makes of its output
    (append_json_char and ds4_crawl_client_build_url_body in ds4_crawl_client.c). */
module CrawlBody {
  import opened Bytes
  import Utf8
  import opened JsonGrammar
  import opened JsonLexis
  import opened JsonParse

  /** {"url":" */
  const HEAD: seq<Byte> := [0x7b, 0x22, 0x75, 0x72, 0x6c, 0x22, 0x3a, 0x22]
  /** "} */
  const TAIL: seq<Byte> := [0x22, 0x7d]
  const URL: seq<Byte> := [0x75, 0x72, 0x6c]

  // ------------------------------------------------------------------------------
  // Escaping
  // ------------------------------------------------------------------------------

  function LowerHex(d: nat): Byte
    requires d < 16
  {
    if d < 10 then ZERO + d else 0x61 + d - 10
  }

  function Escaped(c: Byte): (r: seq<Byte>)
    ensures 1 <= |r| <= 6
  {
    if c == QUOTE || c == BACKSLASH then [BACKSLASH, c]
    else if c == 0x0a then [BACKSLASH, 0x6e]
    else if c == 0x0d then [BACKSLASH, 0x72]
    else if c == 0x09 then [BACKSLASH, 0x74]
    else if c < 0x20 then [BACKSLASH, LETTER_U, ZERO, ZERO, LowerHex(c / 16), LowerHex(c % 16)]
    else [c]
  }

  function EscapeAll(s: seq<Byte>): seq<Byte> {
    if s == [] then [] else Escaped(s[0]) + EscapeAll(s[1..])
  }

  function Body(url: seq<Byte>): seq<Byte> {
    HEAD + (EscapeAll(url) + TAIL)
  }

  lemma BodyIsSpelled(url: seq<Byte>)
    ensures Body(url) == Ascii("{\"url\":\"") + EscapeAll(url) + Ascii("\"}") && URL == Ascii("url")
  {
    assert HEAD == Ascii("{\"url\":\"") && TAIL == Ascii("\"}");
  }

  /** A C string has no NUL. */
  predicate CString(s: seq<Byte>) {
    0 !in s
  }

  // ------------------------------------------------------------------------------
  // The printer
  // ------------------------------------------------------------------------------

  /** Put bytes at `cursor` if they and a terminator fit. */
  method Put(out: array<Byte>, cursor: nat, bytes: seq<Byte>) returns (ok: bool, next: nat)
    requires cursor <= out.Length
    modifies out
    ensures ok <==> |bytes| < out.Length - cursor
    ensures ok ==> next == cursor + |bytes| && out[..next] == old(out[..cursor]) + bytes
    ensures !ok ==> next == cursor && out[..] == old(out[..])
  {
    if out.Length - cursor <= |bytes| {
      return false, cursor;
    }
    for j := 0 to |bytes|
      invariant out[..cursor + j] == old(out[..cursor]) + bytes[..j]
    {
      out[cursor + j] := bytes[j];
      assert bytes[..j + 1] == bytes[..j] + [bytes[j]];
    }
    assert bytes[..|bytes|] == bytes;
    return true, cursor + |bytes|;
  }

  /** Append one character of the URL, escaped, leaving room for the terminator. */
  method AppendChar(out: array<Byte>, cursor: nat, c: Byte) returns (ok: bool, next: nat)
    requires cursor <= out.Length
    modifies out
    ensures ok <==> |Escaped(c)| < out.Length - cursor
    ensures ok ==> next == cursor + |Escaped(c)| && out[..next] == old(out[..cursor]) + Escaped(c)
  {
    if cursor == out.Length {
      return false, cursor;
    }
    if c == QUOTE || c == BACKSLASH {
      ok, next := Put(out, cursor, [BACKSLASH, c]);
    } else if c == 0x0a || c == 0x0d || c == 0x09 {
      ok, next := Put(out, cursor, [BACKSLASH, if c == 0x0a then 0x6e else if c == 0x0d then 0x72 else 0x74]);
    } else if c < 0x20 {
      ok, next := Put(out, cursor, [BACKSLASH, LETTER_U, ZERO, ZERO, LowerHex(c / 16), LowerHex(c % 16)]);
    } else {
      ok, next := Put(out, cursor, [c]);
    }
  }

  lemma {:induction false} EscapeSnoc(s: seq<Byte>, c: Byte)
    ensures EscapeAll(s + [c]) == EscapeAll(s) + Escaped(c)
  {
    hide Escaped;
    if s == [] {
      assert s + [c] == [c] && [c][1..] == [];
    } else {
      assert (s + [c])[1..] == s[1..] + [c];
      EscapeSnoc(s[1..], c);
    }
  }

  lemma {:induction false} EscapeLonger(s: seq<Byte>, t: seq<Byte>)
    ensures EscapeAll(s + t) == EscapeAll(s) + EscapeAll(t)
  {
    hide Escaped;
    if s == [] {
      assert s + t == t;
    } else {
      assert (s + t)[1..] == s[1..] + t;
      EscapeLonger(s[1..], t);
    }
  }

  /** The body is built exactly when its escaped length, the eleven bytes around it and the
      terminator fit, and nothing is ever written past the buffer. */
  method BuildUrlBody(url: seq<Byte>, out: array<Byte>) returns (ok: bool)
    requires CString(url)
    modifies out
    ensures ok <==> url != [] && |EscapeAll(url)| + 11 <= out.Length
    ensures ok ==> out[..|Body(url)|] == Body(url) && out[|Body(url)|] == 0
  {
    hide Escaped;
    if url == [] {
      return false;
    }
    if out.Length == 0 {
      return false;
    }
    assert out[..0] == [];
    var fits, cursor := Put(out, 0, HEAD);
    if !fits {
      return false;
    }
    assert url[..0] == [] && HEAD + EscapeAll([]) == HEAD;
    for i := 0 to |url|
      invariant cursor == |HEAD| + |EscapeAll(url[..i])| < out.Length
      invariant out[..cursor] == HEAD + EscapeAll(url[..i])
    {
      assert url == url[..i] + url[i..] && url[..i + 1] == url[..i] + [url[i]] && url == url[..i + 1] + url[i + 1..];
      EscapeSnoc(url[..i], url[i]);
      EscapeLonger(url[..i + 1], url[i + 1..]);
      fits, cursor := AppendChar(out, cursor, url[i]);
      if !fits {
        return false;
      }
    }
    assert url[..|url|] == url;
    fits, cursor := Put(out, cursor, TAIL);
    if !fits {
      return false;
    }
    assert HEAD + EscapeAll(url) + TAIL == Body(url);
    out[cursor] := 0;
    assert out[..|Body(url)|] == Body(url);
    ok := true;
  }

  // ------------------------------------------------------------------------------
  // The parser reads it back
  // ------------------------------------------------------------------------------

  /** The characters that a URL is printed as. */
  ghost function UnitsOf(url: seq<Byte>): seq<Unit>
    requires Utf8.WellFormed(url)
    decreases |url|
  {
    if url == [] then []
    else
      var n := Utf8.RawLength(url);
      [UnitOf(url[..n])] + UnitsOf(url[n..])
  }

  ghost function UnitOf(character: seq<Byte>): Unit
    requires character != []
  {
    var c := character[0];
    if c == QUOTE || c == BACKSLASH then Escape(c)
    else if c == 0x0a then Escape(0x6e)
    else if c == 0x0d then Escape(0x72)
    else if c == 0x09 then Escape(0x74)
    else if c < 0x20 then Hex([ZERO, ZERO, LowerHex(c / 16), LowerHex(c % 16)])
    else Plain(character)
  }

  lemma {:induction false} HighBytesStay(s: seq<Byte>)
    requires forall i | 0 <= i < |s| :: 0x80 <= s[i]
    ensures EscapeAll(s) == s
  {
    if s != [] {
      HighBytesStay(s[1..]);
    }
  }

  lemma ControlHex(c: Byte)
    requires 0 < c < 0x20
    ensures var d := [ZERO, ZERO, LowerHex(c / 16), LowerHex(c % 16)];
            Hex4(d) && HexValue(d) == c && Utf8.Encode(c) == [c]
  {
    var d := [ZERO, ZERO, LowerHex(c / 16), LowerHex(c % 16)];
    assert HexDigit(d[2]) == c / 16 && HexDigit(d[3]) == c % 16;
  }

  lemma EscapedLetter(c: Byte)
    requires c == QUOTE || c == BACKSLASH || c == 0x0a || c == 0x0d || c == 0x09
    ensures var u := UnitOf([c]);
            UnitOk(u) && RenderUnit(u) == Escaped(c) && DecodeUnit(u) == [c] && !IsNul(u)
  {
    hide HexValue, Utf8.RawLength, Utf8.Encode, Hex4;
  }

  lemma EscapedControl(c: Byte)
    requires 0 < c < 0x20 && c != 0x0a && c != 0x0d && c != 0x09
    ensures var u := UnitOf([c]);
            UnitOk(u) && RenderUnit(u) == Escaped(c) && DecodeUnit(u) == [c] && !IsNul(u)
  {
    hide HexValue, Utf8.RawLength, Utf8.Encode, Hex4, LowerHex;
    ControlHex(c);
  }

  lemma PlainCharacter(t: seq<Byte>)
    requires t != [] && Utf8.RawLength(t) == |t| && 0x20 <= t[0] && t[0] != QUOTE && t[0] != BACKSLASH
    ensures UnitOk(UnitOf(t)) && UnitOf(t) == Plain(t)
    ensures RenderUnit(UnitOf(t)) == t && DecodeUnit(UnitOf(t)) == t && !IsNul(UnitOf(t))
  {
    hide HexValue, Utf8.RawLength, Utf8.Encode, Hex4;
  }

  lemma AsciiIsAlone(t: seq<Byte>)
    requires t != [] && Utf8.RawLength(t) == |t| && t[0] < 0x80
    ensures t == [t[0]] && EscapeAll(t) == Escaped(t[0])
  {
    assert t[1..] == [];
    assert EscapeAll([]) == [];
  }

  /** One character: what is printed for it is one unit that decodes to it. */
  lemma CharacterReadsBack(t: seq<Byte>)
    requires t != [] && Utf8.RawLength(t) == |t| && t[0] != 0
    ensures UnitOk(UnitOf(t)) && RenderUnit(UnitOf(t)) == EscapeAll(t)
    ensures DecodeUnit(UnitOf(t)) == t && !IsNul(UnitOf(t))
  {
    hide UnitOk, UnitOf, RenderUnit, DecodeUnit, IsNul, Utf8.RawLength, EscapeAll;
    var c := t[0];
    if c < 0x80 {
      AsciiIsAlone(t);
      if c == QUOTE || c == BACKSLASH || c == 0x0a || c == 0x0d || c == 0x09 {
        EscapedLetter(c);
      } else if c < 0x20 {
        EscapedControl(c);
      } else {
        PlainCharacter(t);
      }
    } else {
      PlainCharacter(t);
      HighTail(t);
      HighBytesStay(t);
    }
  }

  lemma HighTail(t: seq<Byte>)
    requires t != [] && 0 < Utf8.RawLength(t) && 0x80 <= t[0]
    ensures forall i | 0 <= i < Utf8.RawLength(t) :: 0x80 <= t[i]
  {
  }

  /** A well-formed URL: its escaped form is a string of the language and decodes to it. */
  lemma {:induction false} EscapeReadsBack(url: seq<Byte>)
    requires Utf8.WellFormed(url) && CString(url)
    ensures UnitsOk(UnitsOf(url)) && RenderUnits(UnitsOf(url)) == EscapeAll(url)
    ensures DecodeUnits(UnitsOf(url)) == Text(url, false)
    decreases |url|
  {
    hide UnitOk, RenderUnit, DecodeUnit, IsNul, UnitOf, Escaped, Utf8.RawLength;
    if url != [] {
      var n := Utf8.RawLength(url);
      Utf8.SameFront(url, []);
      CharacterReadsBack(url[..n]);
      EscapeReadsBack(url[n..]);
      assert url == url[..n] + url[n..];
      EscapeLonger(url[..n], url[n..]);
      var us := UnitsOf(url);
      assert us[0] == UnitOf(url[..n]) && us[1..] == UnitsOf(url[n..]);
    }
  }

  /** The parse tree of the body. */
  ghost function Tree(url: seq<Byte>): Value
    requires Utf8.WellFormed(url)
  {
    Obj([], LastMember([Plain([0x75]), Plain([0x72]), Plain([0x6c])], [], [], Str(UnitsOf(url)), []))
  }

  lemma NameIsUrl()
    ensures var us := [Plain([0x75]), Plain([0x72]), Plain([0x6c])];
            UnitsOk(us) && RenderString(us) == [QUOTE, 0x75, 0x72, 0x6c, QUOTE] && DecodeUnits(us) == Text(URL, false)
  {
    var us := [Plain([0x75]), Plain([0x72]), Plain([0x6c])];
    assert us[1..] == [Plain([0x72]), Plain([0x6c])] && us[1..][1..] == [Plain([0x6c])] && us[1..][1..][1..] == [];
  }

  lemma BodyIsTree(url: seq<Byte>)
    requires Utf8.WellFormed(url) && CString(url)
    ensures Spells(Body(url), [], Tree(url), [])
  {
    hide UnitsOk, RenderUnits, EscapeAll;
    NameIsUrl();
    EscapeReadsBack(url);
    var name, text := [QUOTE, 0x75, 0x72, 0x6c, QUOTE], EscapeAll(url);
    assert Render(Tree(url)) == [OPEN_BRACE] + ([] + ((name + ([] + ([COLON] + []))) + ([QUOTE] + (text + [QUOTE]) + []) + [CLOSE_BRACE]));
    assert Body(url) == [] + (Render(Tree(url)) + []);
  }

  // ------------------------------------------------------------------------------
  // Only well-formed URLs survive
  // ------------------------------------------------------------------------------

  lemma AsciiIsRaw(c: Byte)
    requires c < 0x80
    ensures Utf8.RawLength([c]) == 1
  {
  }

  /** How many bytes outside ASCII there are at the front. */
  function HighRun(s: seq<Byte>): (n: nat)
    ensures n <= |s| && (forall i | 0 <= i < n :: 0x80 <= s[i]) && (n < |s| ==> s[n] < 0x80)
  {
    if s == [] || s[0] < 0x80 then 0 else 1 + HighRun(s[1..])
  }

  lemma EscapedIsAscii(c: Byte)
    requires c < 0x80
    ensures Escaped(c)[0] < 0x80
  {
  }

  /** Escaped text agrees with the original up to its first ASCII byte. */
  lemma EscapeKeepsHighRun(url: seq<Byte>, rest: seq<Byte>)
    requires rest != [] && rest[0] < 0x80
    ensures var b, k := EscapeAll(url) + rest, HighRun(url);
            k < |b| && b[..k] == url[..k] && b[k] < 0x80
  {
    hide Escaped;
    var k := HighRun(url);
    assert url == url[..k] + url[k..];
    EscapeLonger(url[..k], url[k..]);
    HighBytesStay(url[..k]);
    if k < |url| { EscapedIsAscii(url[k]); }
  }

  lemma CharacterEndsInRun(b: seq<Byte>, k: nat)
    requires b != [] && 0x80 <= b[0] && 0 < Utf8.RawLength(b) && k < |b| && b[k] < 0x80
    ensures Utf8.RawLength(b) <= k
  {
    hide Utf8.RawLength;
    HighTail(b);
  }

  lemma FrontDecides(b: seq<Byte>, s: seq<Byte>, n: nat)
    requires 0 < Utf8.RawLength(b) == n <= |s| && b[..n] == s[..n]
    ensures Utf8.RawLength(s) == n
  {
    hide Utf8.RawLength;
    Utf8.SameFront(b, []);
    Utf8.SameFront(s[..n], s[n..]);
    assert s == s[..n] + s[n..];
  }

  /** A character that the parser finds at the front of escaped text was there before. */
  lemma HighCharacterWasThere(url: seq<Byte>, rest: seq<Byte>)
    requires url != [] && 0x80 <= url[0] && rest != [] && rest[0] < 0x80
    requires 0 < Utf8.RawLength(EscapeAll(url) + rest)
    ensures var n := Utf8.RawLength(EscapeAll(url) + rest);
            && n <= |url| && Utf8.RawLength(url) == n
            && (EscapeAll(url) + rest)[n..] == EscapeAll(url[n..]) + rest
  {
    hide Utf8.RawLength, Escaped, EscapeAll, HighRun;
    var b := EscapeAll(url) + rest;
    var n, k := Utf8.RawLength(b), HighRun(url);
    EscapeKeepsHighRun(url, rest);
    RunIsLong(url);
    SameUpTo(b, url, k, 1);
    CharacterEndsInRun(b, k);
    SameUpTo(b, url, k, n);
    FrontDecides(b, url, n);
    EscapeFrom(url, n, rest);
  }

  lemma SameUpTo(b: seq<Byte>, s: seq<Byte>, k: nat, n: nat)
    requires n <= k <= |b| && k <= |s| && b[..k] == s[..k]
    ensures b[..n] == s[..n] && (0 < n ==> b[0] == s[0])
  {
    assert b[..n] == b[..k][..n];
    assert s[..n] == s[..k][..n];
    if 0 < n {
      assert b[0] == b[..k][0];
    }
  }

  lemma RunIsLong(url: seq<Byte>)
    requires url != [] && 0x80 <= url[0]
    ensures 0 < HighRun(url)
  {
  }

  lemma EscapeFrom(url: seq<Byte>, n: nat, rest: seq<Byte>)
    requires n <= HighRun(url)
    ensures n <= |EscapeAll(url)|
    ensures (EscapeAll(url) + rest)[n..] == EscapeAll(url[n..]) + rest
  {
    hide Escaped, EscapeAll, HighRun;
    var front, back := url[..n], url[n..];
    assert url == front + back;
    EscapeLonger(front, back);
    HighBytesStay(front);
    DropFront(front, EscapeAll(back), rest);
  }

  lemma DropFront(front: seq<Byte>, middle: seq<Byte>, rest: seq<Byte>)
    ensures (front + middle + rest)[|front|..] == middle + rest
  {
  }

  lemma {:induction false} StringNeedsUtf8(url: seq<Byte>, rest: seq<Byte>)
    requires CString(url) && TakeUnits(EscapeAll(url) + ([QUOTE] + rest)).Got?
    ensures Utf8.WellFormed(url)
    decreases |url|
  {
    hide Escaped, UnitOk, UnitOf, RenderUnit, DecodeUnit, IsNul, Utf8.RawLength;
    if url != [] {
      var c, end := url[0], [QUOTE] + rest;
      var b := EscapeAll(url) + end;
      if c < 0x80 {
        AsciiIsRaw(c);
        CharacterReadsBack([c]);
        assert EscapeAll([c]) == Escaped(c) by { assert [c][1..] == []; }
        var tail := EscapeAll(url[1..]) + end;
        assert b == RenderUnit(UnitOf([c])) + tail;
        TakeUnitComplete(UnitOf([c]), tail);
        StringNeedsUtf8(url[1..], rest);
        Utf8.SameFront([c], url[1..]);
        assert url == [c] + url[1..];
      } else {
        HighStart(url, end);
        HighCharacterWasThere(url, end);
        StringNeedsUtf8(url[Utf8.RawLength(b)..], rest);
      }
    }
  }

  lemma HighStart(url: seq<Byte>, end: seq<Byte>)
    requires url != [] && 0x80 <= url[0]
    requires TakeUnits(EscapeAll(url) + end).Got?
    ensures 0 < Utf8.RawLength(EscapeAll(url) + end)
    ensures TakeUnits((EscapeAll(url) + end)[Utf8.RawLength(EscapeAll(url) + end)..]).Got?
  {
    hide Utf8.RawLength;
    assert (EscapeAll(url) + end)[0] == url[0];
  }

  /** The parser accepts the body exactly when the URL is well-formed UTF-8; its one member is
      then called "url", and its string decodes to the URL. */
  lemma BodyIsAcceptedForUtf8(url: seq<Byte>)
    requires CString(url)
    ensures Accepts(Body(url)) <==> Utf8.WellFormed(url)
    ensures Utf8.WellFormed(url) ==>
              && TakeValue(Skip(Body(url)), 0) == Got(Tree(url), [])
              && UnitsOk(UnitsOf(url)) && DecodeUnits(UnitsOf(url)) == Text(url, false)
  {
    if Utf8.WellFormed(url) {
      hide Accepts, UnitsOf, Utf8.WellFormed, TakeValue, UnitsOk, DecodeUnits;
      BodyIsTree(url);
      AcceptsExactlyJson(Body(url));
      assert IsJson(Body(url));
      OneReading(Body(url), [], Tree(url), []);
      EscapeReadsBack(url);
    }
    if Accepts(Body(url)) {
      StringIsReached(url);
      StringNeedsUtf8(url, [CLOSE_BRACE]);
    }
  }

  lemma ObjectHasMembers(b: seq<Byte>)
    requires b != [] && b[0] == OPEN_BRACE && TakeValue(b, 0).Got?
    ensures var c := Skip(b[1..]);
            c == [] || c[0] != CLOSE_BRACE ==> TakeMembers(c, 1).Got?
  {
    hide TakeMembers, SpaceRun;
  }

  lemma MembersHaveValue(b: seq<Byte>)
    requires TakeMembers(b, 1).Got?
    ensures TakeKey(b).Got? && TakeValue(TakeKey(b).rest, 1).Got?
  {
    hide TakeKey, TakeValue, SpaceRun;
  }

  lemma StringValueIsString(value: seq<Byte>)
    requires value != [] && value[0] == QUOTE && TakeValue(value, 1).Got?
    ensures TakeUnits(value[1..]).Got?
  {
    hide TakeUnits;
  }

  /** An accepted body has had its string accepted. */
  lemma StringIsReached(url: seq<Byte>)
    requires Accepts(Body(url))
    ensures TakeUnits(EscapeAll(url) + ([QUOTE] + [CLOSE_BRACE])).Got?
  {
    hide TakeKey, TakeUnits, TakeValue, TakeMembers, EscapeAll, RenderString, UnitsOk, DecodeUnits, SpaceRun;
    NameIsUrl();
    var us := [Plain([0x75]), Plain([0x72]), Plain([0x6c])];
    var text := EscapeAll(url) + ([QUOTE] + [CLOSE_BRACE]);
    var value := [QUOTE] + text;
    var members := RenderKey(us, [], []) + value;
    assert RenderKey(us, [], []) == [QUOTE, 0x75, 0x72, 0x6c, QUOTE, COLON];
    assert Body(url) == [OPEN_BRACE] + members;
    assert Body(url)[1..] == members;
    Separates([], Body(url));
    assert [] + Body(url) == Body(url);
    Separates([], members);
    assert [] + members == members;
    KeyComplete(us, [], [], value);
    ObjectHasMembers(Body(url));
    MembersHaveValue(members);
    StringValueIsString(value);
    assert value[1..] == text;
  }
}
