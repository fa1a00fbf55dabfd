/** The JSON grammar of RFC 8259 as parse trees and their spelling.  Strings are well-formed
    UTF-8, `\u` escapes of surrogates come in pairs, and containers nest at most to depth
    MAX_DEPTH; a text belongs to the language when some tree spells it. */
module JsonGrammar {
  import opened Bytes
  import Utf8

  const MAX_DEPTH := 128

  const QUOTE: Byte := 0x22
  const PLUS: Byte := 0x2b
  const COMMA: Byte := 0x2c
  const MINUS: Byte := 0x2d
  const DOT: Byte := 0x2e
  const ZERO: Byte := 0x30
  const NINE: Byte := 0x39
  const COLON: Byte := 0x3a
  const OPEN_BRACKET: Byte := 0x5b
  const BACKSLASH: Byte := 0x5c
  const CLOSE_BRACKET: Byte := 0x5d
  const LETTER_U: Byte := 0x75
  const OPEN_BRACE: Byte := 0x7b
  const CLOSE_BRACE: Byte := 0x7d

  const TRUE: seq<Byte> := [0x74, 0x72, 0x75, 0x65]
  const FALSE: seq<Byte> := [0x66, 0x61, 0x6c, 0x73, 0x65]
  const NULL: seq<Byte> := [0x6e, 0x75, 0x6c, 0x6c]

  // ------------------------------------------------------------------------------
  // White space (section 2)
  // ------------------------------------------------------------------------------

  predicate Space(b: Byte) {
    b == 0x20 || b == 0x09 || b == 0x0a || b == 0x0d
  }

  ghost predicate AllSpace(s: seq<Byte>) {
    forall b | b in s :: Space(b)
  }

  // ------------------------------------------------------------------------------
  // Strings (section 7)
  // ------------------------------------------------------------------------------

  /** One character of a string: itself, a two-character escape, one `\u` escape, or two of them
      for a character outside the basic plane. */
  datatype Unit = Plain(text: seq<Byte>) | Escape(mark: Byte) | Hex(digits: seq<Byte>) | Pair(high: seq<Byte>, low: seq<Byte>)

  predicate IsDigit(b: Byte) {
    ZERO <= b <= NINE
  }

  predicate IsHexDigit(b: Byte) {
    IsDigit(b) || 0x61 <= b <= 0x66 || 0x41 <= b <= 0x46
  }

  function HexDigit(b: Byte): nat
    requires IsHexDigit(b)
  {
    if IsDigit(b) then b - ZERO else if 0x61 <= b then b - 0x61 + 10 else b - 0x41 + 10
  }

  predicate Hex4(d: seq<Byte>) {
    |d| == 4 && IsHexDigit(d[0]) && IsHexDigit(d[1]) && IsHexDigit(d[2]) && IsHexDigit(d[3])
  }

  function HexValue(d: seq<Byte>): (v: nat)
    requires Hex4(d)
    ensures v < 0x1_0000
  {
    ((HexDigit(d[0]) * 16 + HexDigit(d[1])) * 16 + HexDigit(d[2])) * 16 + HexDigit(d[3])
  }

  predicate SimpleEscape(m: Byte) {
    m == QUOTE || m == BACKSLASH || m == 0x2f || m == 0x62 || m == 0x66 || m == 0x6e || m == 0x72 || m == 0x74
  }

  predicate UnitOk(u: Unit) {
    match u
    case Plain(t) => 0 < Utf8.RawLength(t) == |t| && 0x20 <= t[0] && t[0] != QUOTE && t[0] != BACKSLASH
    case Escape(m) => SimpleEscape(m)
    case Hex(d) => Hex4(d) && (HexValue(d) < 0xd800 || 0xdfff < HexValue(d))
    case Pair(h, l) => Hex4(h) && Hex4(l) && 0xd800 <= HexValue(h) <= 0xdbff && 0xdc00 <= HexValue(l) <= 0xdfff
  }

  function RenderUnit(u: Unit): seq<Byte> {
    match u
    case Plain(t) => t
    case Escape(m) => [BACKSLASH, m]
    case Hex(d) => [BACKSLASH, LETTER_U] + d
    case Pair(h, l) => [BACKSLASH, LETTER_U] + h + ([BACKSLASH, LETTER_U] + l)
  }

  ghost predicate UnitsOk(us: seq<Unit>) {
    forall u | u in us :: UnitOk(u)
  }

  function RenderUnits(us: seq<Unit>): seq<Byte> {
    if us == [] then [] else RenderUnit(us[0]) + RenderUnits(us[1..])
  }

  function RenderString(us: seq<Unit>): seq<Byte> {
    [QUOTE] + (RenderUnits(us) + [QUOTE])
  }

  /** The character an escape letter stands for. */
  function Unescape(m: Byte): Byte {
    if m == 0x62 then 0x08 else if m == 0x66 then 0x0c else if m == 0x6e then 0x0a
    else if m == 0x72 then 0x0d else if m == 0x74 then 0x09 else m
  }

  predicate IsNul(u: Unit)
    requires UnitOk(u)
  {
    u.Hex? && HexValue(u.digits) == 0
  }

  /** The bytes a character decodes to; an escaped NUL leaves none and is noted elsewhere. */
  function DecodeUnit(u: Unit): seq<Byte>
    requires UnitOk(u)
  {
    match u
    case Plain(t) => t
    case Escape(m) => [Unescape(m)]
    case Hex(d) => if HexValue(d) == 0 then [] else Utf8.Encode(HexValue(d))
    case Pair(h, l) => Utf8.Encode(0x1_0000 + (HexValue(h) - 0xd800) * 0x400 + (HexValue(l) - 0xdc00))
  }

  datatype Text = Text(bytes: seq<Byte>, containsNul: bool)

  function DecodeUnits(us: seq<Unit>): Text
    requires UnitsOk(us)
  {
    if us == [] then Text([], false)
    else
      var rest := DecodeUnits(us[1..]);
      Text(DecodeUnit(us[0]) + rest.bytes, IsNul(us[0]) || rest.containsNul)
  }

  // ------------------------------------------------------------------------------
  // Numbers (section 6)
  // ------------------------------------------------------------------------------

  datatype Number = Number(minus: bool, whole: seq<Byte>, fraction: seq<Byte>, exponent: seq<Byte>)

  ghost predicate AllDigits(s: seq<Byte>) {
    forall b | b in s :: IsDigit(b)
  }

  ghost predicate FractionOk(f: seq<Byte>) {
    f == [] || (f[0] == DOT && 1 < |f| && AllDigits(f[1..]))
  }

  predicate IsE(b: Byte) {
    b == 0x65 || b == 0x45
  }

  predicate IsSign(b: Byte) {
    b == PLUS || b == MINUS
  }

  ghost predicate ExponentOk(e: seq<Byte>) {
    e == [] ||
    (&& IsE(e[0]) && 1 < |e|
     && if IsSign(e[1]) then 2 < |e| && AllDigits(e[2..]) else AllDigits(e[1..]))
  }

  ghost predicate WholeOk(w: seq<Byte>) {
    w == [ZERO] || (w != [] && AllDigits(w) && w[0] != ZERO)
  }

  ghost predicate NumberOk(n: Number) {
    WholeOk(n.whole) && FractionOk(n.fraction) && ExponentOk(n.exponent)
  }

  function RenderNumber(n: Number): seq<Byte> {
    (if n.minus then [MINUS] else []) + (n.whole + (n.fraction + n.exponent))
  }

  // ------------------------------------------------------------------------------
  // Values, arrays and objects (sections 3 to 5)
  // ------------------------------------------------------------------------------

  datatype Value =
    | Word(text: seq<Byte>)
    | Num(number: Number)
    | Str(units: seq<Unit>)
    | EmptyArr(space: seq<Byte>)
    | Arr(space: seq<Byte>, items: Items)
    | EmptyObj(space: seq<Byte>)
    | Obj(space: seq<Byte>, members: Members)

  datatype Items =
    | LastItem(value: Value, after: seq<Byte>)
    | Item(value: Value, after: seq<Byte>, before: seq<Byte>, more: Items)

  datatype Members =
    | LastMember(key: seq<Unit>, afterKey: seq<Byte>, beforeValue: seq<Byte>, value: Value, after: seq<Byte>)
    | Member(key: seq<Unit>, afterKey: seq<Byte>, beforeValue: seq<Byte>, value: Value, after: seq<Byte>,
             before: seq<Byte>, more: Members)

  function Render(v: Value): seq<Byte> {
    match v
    case Word(t) => t
    case Num(n) => RenderNumber(n)
    case Str(us) => RenderString(us)
    case EmptyArr(s) => [OPEN_BRACKET] + (s + [CLOSE_BRACKET])
    case Arr(s, items) => [OPEN_BRACKET] + (s + (RenderItems(items) + [CLOSE_BRACKET]))
    case EmptyObj(s) => [OPEN_BRACE] + (s + [CLOSE_BRACE])
    case Obj(s, members) => [OPEN_BRACE] + (s + (RenderMembers(members) + [CLOSE_BRACE]))
  }

  function RenderItems(items: Items): seq<Byte> {
    match items
    case LastItem(v, after) => Render(v) + after
    case Item(v, after, before, more) => Render(v) + (after + ([COMMA] + (before + RenderItems(more))))
  }

  function RenderKey(key: seq<Unit>, afterKey: seq<Byte>, beforeValue: seq<Byte>): seq<Byte> {
    RenderString(key) + (afterKey + ([COLON] + beforeValue))
  }

  function RenderMembers(members: Members): seq<Byte> {
    match members
    case LastMember(k, ak, bv, v, after) => RenderKey(k, ak, bv) + (Render(v) + after)
    case Member(k, ak, bv, v, after, before, more) =>
      RenderKey(k, ak, bv) + (Render(v) + (after + ([COMMA] + (before + RenderMembers(more)))))
  }

  /** The tree obeys the grammar, and its containers stay within the nesting bound when its
      root is at `depth`. */
  ghost predicate Ok(v: Value, depth: nat) {
    match v
    case Word(t) => t == TRUE || t == FALSE || t == NULL
    case Num(n) => NumberOk(n)
    case Str(us) => UnitsOk(us)
    case EmptyArr(s) => depth <= MAX_DEPTH && AllSpace(s)
    case Arr(s, items) => depth <= MAX_DEPTH && AllSpace(s) && ItemsOk(items, depth + 1)
    case EmptyObj(s) => depth <= MAX_DEPTH && AllSpace(s)
    case Obj(s, members) => depth <= MAX_DEPTH && AllSpace(s) && MembersOk(members, depth + 1)
  }

  ghost predicate ItemsOk(items: Items, depth: nat) {
    match items
    case LastItem(v, after) => Ok(v, depth) && AllSpace(after)
    case Item(v, after, before, more) => Ok(v, depth) && AllSpace(after) && AllSpace(before) && ItemsOk(more, depth)
  }

  ghost predicate KeyOk(key: seq<Unit>, afterKey: seq<Byte>, beforeValue: seq<Byte>) {
    UnitsOk(key) && AllSpace(afterKey) && AllSpace(beforeValue)
  }

  ghost predicate MembersOk(members: Members, depth: nat) {
    match members
    case LastMember(k, ak, bv, v, after) => KeyOk(k, ak, bv) && Ok(v, depth) && AllSpace(after)
    case Member(k, ak, bv, v, after, before, more) =>
      KeyOk(k, ak, bv) && Ok(v, depth) && AllSpace(after) && AllSpace(before) && MembersOk(more, depth)
  }

  /** A JSON text: a value between white space. */
  ghost predicate Spells(text: seq<Byte>, before: seq<Byte>, v: Value, after: seq<Byte>) {
    AllSpace(before) && Ok(v, 0) && AllSpace(after) && text == before + (Render(v) + after)
  }

  ghost predicate IsJson(text: seq<Byte>) {
    exists before, v, after :: Spells(text, before, v, after)
  }
}
