/** The value parser as a function from text to parse tree, and its exact agreement with the
    grammar (ds4_parse_value, ds4_parse_array, ds4_parse_object and ds4_parse_literal in
    ds4_crawl_grounding.c). */
module JsonParse {
  import opened Bytes
  import opened JsonGrammar
  import opened JsonLexis

  // ------------------------------------------------------------------------------
  // The parser
  // ------------------------------------------------------------------------------

  function TakeWord(b: seq<Byte>, word: seq<Byte>): Read<Value> {
    if |word| <= |b| && b[..|word|] == word then Got(Word(word), b[|word|..]) else Short
  }

  predicate StartsNumber(c: Byte) {
    c == MINUS || IsDigit(c)
  }

  function TakeNum(b: seq<Byte>): Read<Value> {
    match TakeNumber(b) case Short => Short case Got(n, rest) => Got(Num(n), rest)
  }

  function TakeStr(b: seq<Byte>): Read<Value> {
    match TakeString(b) case Short => Short case Got(us, rest) => Got(Str(us), rest)
  }

  /** A value that is not a container. */
  function TakeScalar(b: seq<Byte>): Read<Value>
    requires b != []
  {
    if b[0] == QUOTE then TakeStr(b)
    else if b[0] == TRUE[0] then TakeWord(b, TRUE)
    else if b[0] == FALSE[0] then TakeWord(b, FALSE)
    else if b[0] == NULL[0] then TakeWord(b, NULL)
    else if StartsNumber(b[0]) then TakeNum(b)
    else Short
  }

  /** Nothing is ever read twice. */
  ghost predicate Shrinks<T>(r: Read<T>, b: seq<Byte>) {
    r.Got? ==> |r.rest| < |b|
  }

  lemma ScalarShrinks(b: seq<Byte>)
    requires b != []
    ensures Shrinks(TakeScalar(b), b)
  {
    hide TakeNumber, TakeString;
    if TakeNumber(b).Got? {
      TakeNumberSound(b);
      assert |RenderNumber(TakeNumber(b).value)| > 0;
    }
  }

  function TakeValue(b: seq<Byte>, depth: nat): (r: Read<Value>)
    ensures Shrinks(r, b)
    decreases |b|, 1
  {
    if b == [] then Short
    else if b[0] == OPEN_BRACE then TakeObject(b, depth)
    else if b[0] == OPEN_BRACKET then TakeArray(b, depth)
    else ScalarShrinks(b); TakeScalar(b)
  }

  function TakeArray(b: seq<Byte>, depth: nat): (r: Read<Value>)
    requires b != []
    ensures Shrinks(r, b)
    decreases |b|, 0
  {
    if MAX_DEPTH < depth then Short
    else
      var c := Skip(b[1..]);
      var space := b[1..][..SpaceRun(b[1..])];
      if c != [] && c[0] == CLOSE_BRACKET then Got(EmptyArr(space), c[1..])
      else
        match TakeItems(c, depth + 1)
        case Short => Short
        case Got(items, rest) => Got(Arr(space, items), rest)
  }

  function TakeItems(b: seq<Byte>, depth: nat): (r: Read<Items>)
    ensures Shrinks(r, b)
    decreases |b|, 2
  {
    match TakeValue(b, depth)
    case Short => Short
    case Got(v, b1) =>
      var after, c := b1[..SpaceRun(b1)], Skip(b1);
      if c == [] then Short
      else if c[0] == CLOSE_BRACKET then Got(LastItem(v, after), c[1..])
      else if c[0] != COMMA then Short
      else
        var before := c[1..][..SpaceRun(c[1..])];
        match TakeItems(Skip(c[1..]), depth)
        case Short => Short
        case Got(more, rest) => Got(Item(v, after, before, more), rest)
  }

  function TakeObject(b: seq<Byte>, depth: nat): (r: Read<Value>)
    requires b != []
    ensures Shrinks(r, b)
    decreases |b|, 0
  {
    if MAX_DEPTH < depth then Short
    else
      var c := Skip(b[1..]);
      var space := b[1..][..SpaceRun(b[1..])];
      if c != [] && c[0] == CLOSE_BRACE then Got(EmptyObj(space), c[1..])
      else
        match TakeMembers(c, depth + 1)
        case Short => Short
        case Got(members, rest) => Got(Obj(space, members), rest)
  }

  datatype Key = Key(units: seq<Unit>, afterKey: seq<Byte>, beforeValue: seq<Byte>)

  /** A member's name, its colon and the white space on both sides of that. */
  function TakeKey(b: seq<Byte>): (r: Read<Key>)
    ensures Shrinks(r, b)
  {
    match TakeString(b)
    case Short => Short
    case Got(units, b1) =>
      var afterKey, c := b1[..SpaceRun(b1)], Skip(b1);
      if c == [] || c[0] != COLON then Short
      else Got(Key(units, afterKey, c[1..][..SpaceRun(c[1..])]), Skip(c[1..]))
  }

  function TakeMembers(b: seq<Byte>, depth: nat): (r: Read<Members>)
    ensures Shrinks(r, b)
    decreases |b|, 2
  {
    match TakeKey(b)
    case Short => Short
    case Got(k, b1) =>
      match TakeValue(b1, depth)
      case Short => Short
      case Got(v, b2) =>
        var after, c := b2[..SpaceRun(b2)], Skip(b2);
        if c == [] then Short
        else if c[0] == CLOSE_BRACE then Got(LastMember(k.units, k.afterKey, k.beforeValue, v, after), c[1..])
        else if c[0] != COMMA then Short
        else
          var before := c[1..][..SpaceRun(c[1..])];
          match TakeMembers(Skip(c[1..]), depth)
          case Short => Short
          case Got(more, rest) => Got(Member(k.units, k.afterKey, k.beforeValue, v, after, before, more), rest)
  }

  /** A whole text: one value, white space around it, and nothing else. */
  predicate Accepts(text: seq<Byte>) {
    var r := TakeValue(Skip(text), 0);
    r.Got? && Skip(r.rest) == []
  }

  // ------------------------------------------------------------------------------
  // What is accepted is in the language
  // ------------------------------------------------------------------------------

  lemma ScalarSound(b: seq<Byte>, depth: nat)
    requires b != [] && TakeScalar(b).Got?
    ensures Ok(TakeScalar(b).value, depth) && b == Render(TakeScalar(b).value) + TakeScalar(b).rest
  {
    hide TakeNumber, TakeString, NumberOk, RenderNumber, RenderString;
    if b[0] == QUOTE {
      TakeStringSound(b);
    } else if b[0] == TRUE[0] || b[0] == FALSE[0] || b[0] == NULL[0] {
      var word := TakeScalar(b).value.text;
      assert b == b[..|word|] + b[|word|..];
    } else {
      TakeNumberSound(b);
    }
  }

  lemma {:induction false} ValueSound(b: seq<Byte>, depth: nat)
    requires TakeValue(b, depth).Got?
    ensures Ok(TakeValue(b, depth).value, depth) && b == Render(TakeValue(b, depth).value) + TakeValue(b, depth).rest
    decreases |b|, 1
  {
    hide TakeScalar;
    if b[0] == OPEN_BRACE {
      ObjectSound(b, depth);
    } else if b[0] == OPEN_BRACKET {
      ArraySound(b, depth);
    } else {
      ScalarSound(b, depth);
    }
  }

  lemma Enclose(open: seq<Byte>, space: seq<Byte>, body: seq<Byte>, close: seq<Byte>, rest: seq<Byte>)
    ensures open + (space + (body + close + rest)) == open + (space + (body + close)) + rest
    ensures open + (space + (close + rest)) == open + (space + close) + rest
  {
  }

  lemma {:induction false} ArraySound(b: seq<Byte>, depth: nat)
    requires b != [] && b[0] == OPEN_BRACKET && TakeArray(b, depth).Got?
    ensures Ok(TakeArray(b, depth).value, depth) && b == Render(TakeArray(b, depth).value) + TakeArray(b, depth).rest
    decreases |b|, 0
  {
    hide TakeItems, RenderItems, ItemsOk, SpaceRun, Skip, AllSpace;
    SpaceRunIs(b[1..]);
    var space, c := b[1..][..SpaceRun(b[1..])], Skip(b[1..]);
    assert b == [OPEN_BRACKET] + (space + c);
    if c != [] && c[0] == CLOSE_BRACKET {
      assert c == [CLOSE_BRACKET] + c[1..];
      Enclose([OPEN_BRACKET], space, [], [CLOSE_BRACKET], c[1..]);
    } else {
      ItemsSound(c, depth + 1);
      var items, rest := TakeItems(c, depth + 1).value, TakeItems(c, depth + 1).rest;
      Enclose([OPEN_BRACKET], space, RenderItems(items), [CLOSE_BRACKET], rest);
    }
  }

  lemma {:induction false} ItemsSound(b: seq<Byte>, depth: nat)
    requires TakeItems(b, depth).Got?
    ensures ItemsOk(TakeItems(b, depth).value, depth)
    ensures b == RenderItems(TakeItems(b, depth).value) + [CLOSE_BRACKET] + TakeItems(b, depth).rest
    decreases |b|, 2
  {
    hide TakeValue, Render, Ok, SpaceRun, Skip, AllSpace;
    ValueSound(b, depth);
    var v, b1 := TakeValue(b, depth).value, TakeValue(b, depth).rest;
    SpaceRunIs(b1);
    var after, c := b1[..SpaceRun(b1)], Skip(b1);
    if c[0] == CLOSE_BRACKET {
      assert c == [CLOSE_BRACKET] + c[1..];
      assert Render(v) + (after + ([CLOSE_BRACKET] + c[1..])) == Render(v) + after + [CLOSE_BRACKET] + c[1..];
    } else {
      SpaceRunIs(c[1..]);
      var before, d := c[1..][..SpaceRun(c[1..])], Skip(c[1..]);
      assert c == [COMMA] + (before + d);
      ItemsSound(d, depth);
      var more, rest := TakeItems(d, depth).value, TakeItems(d, depth).rest;
      Regroup(Render(v), after, before, RenderItems(more), [CLOSE_BRACKET], rest);
    }
  }

  lemma Regroup(v: seq<Byte>, after: seq<Byte>, before: seq<Byte>, more: seq<Byte>, close: seq<Byte>, rest: seq<Byte>)
    ensures v + (after + ([COMMA] + (before + (more + close + rest)))) ==
            v + (after + ([COMMA] + (before + more))) + close + rest
  {
  }

  lemma {:induction false} ObjectSound(b: seq<Byte>, depth: nat)
    requires b != [] && b[0] == OPEN_BRACE && TakeObject(b, depth).Got?
    ensures Ok(TakeObject(b, depth).value, depth) && b == Render(TakeObject(b, depth).value) + TakeObject(b, depth).rest
    decreases |b|, 0
  {
    hide TakeMembers, RenderMembers, MembersOk, SpaceRun, Skip, AllSpace;
    SpaceRunIs(b[1..]);
    var space, c := b[1..][..SpaceRun(b[1..])], Skip(b[1..]);
    assert b == [OPEN_BRACE] + (space + c);
    if c != [] && c[0] == CLOSE_BRACE {
      assert c == [CLOSE_BRACE] + c[1..];
      Enclose([OPEN_BRACE], space, [], [CLOSE_BRACE], c[1..]);
    } else {
      MembersSound(c, depth + 1);
      var members, rest := TakeMembers(c, depth + 1).value, TakeMembers(c, depth + 1).rest;
      Enclose([OPEN_BRACE], space, RenderMembers(members), [CLOSE_BRACE], rest);
    }
  }

  lemma KeySound(b: seq<Byte>)
    requires TakeKey(b).Got?
    ensures var k := TakeKey(b).value;
            KeyOk(k.units, k.afterKey, k.beforeValue) && b == RenderKey(k.units, k.afterKey, k.beforeValue) + TakeKey(b).rest
  {
    hide TakeString, RenderString, SpaceRun, Skip, AllSpace;
    TakeStringSound(b);
    var us, b1 := TakeString(b).value, TakeString(b).rest;
    SpaceRunIs(b1);
    var afterKey, c := b1[..SpaceRun(b1)], Skip(b1);
    SpaceRunIs(c[1..]);
    var before, d := c[1..][..SpaceRun(c[1..])], Skip(c[1..]);
    assert c == [COLON] + (before + d);
    assert RenderString(us) + (afterKey + ([COLON] + (before + d))) == RenderString(us) + (afterKey + ([COLON] + before)) + d;
  }

  lemma {:induction false} MembersSound(b: seq<Byte>, depth: nat)
    requires TakeMembers(b, depth).Got?
    ensures MembersOk(TakeMembers(b, depth).value, depth)
    ensures b == RenderMembers(TakeMembers(b, depth).value) + [CLOSE_BRACE] + TakeMembers(b, depth).rest
    decreases |b|, 2
  {
    hide TakeKey, KeyOk, RenderKey, TakeValue, Render, Ok, SpaceRun, Skip, AllSpace;
    KeySound(b);
    var k, b1 := TakeKey(b).value, TakeKey(b).rest;
    ValueSound(b1, depth);
    var v, b2 := TakeValue(b1, depth).value, TakeValue(b1, depth).rest;
    SpaceRunIs(b2);
    var after, c := b2[..SpaceRun(b2)], Skip(b2);
    var key := RenderKey(k.units, k.afterKey, k.beforeValue);
    if c[0] == CLOSE_BRACE {
      assert c == [CLOSE_BRACE] + c[1..];
      assert key + (Render(v) + (after + ([CLOSE_BRACE] + c[1..]))) == key + (Render(v) + after) + [CLOSE_BRACE] + c[1..];
    } else {
      SpaceRunIs(c[1..]);
      var before, d := c[1..][..SpaceRun(c[1..])], Skip(c[1..]);
      assert c == [COMMA] + (before + d);
      MembersSound(d, depth);
      var more, rest := TakeMembers(d, depth).value, TakeMembers(d, depth).rest;
      Regroup(Render(v), after, before, RenderMembers(more), [CLOSE_BRACE], rest);
      assert key + (Render(v) + (after + ([COMMA] + (before + RenderMembers(more)))) + [CLOSE_BRACE] + rest) ==
             key + (Render(v) + (after + ([COMMA] + (before + RenderMembers(more))))) + [CLOSE_BRACE] + rest;
    }
  }

  // ------------------------------------------------------------------------------
  // What is in the language is accepted
  // ------------------------------------------------------------------------------

  predicate IsScalar(v: Value) {
    v.Word? || v.Num? || v.Str?
  }

  /** What can stand at the start of a value, in array or object position. */
  predicate StartsValue(b: seq<Byte>) {
    b != [] && !Space(b[0]) && b[0] != CLOSE_BRACKET && b[0] != CLOSE_BRACE
  }

  lemma NumberStarts(n: Number, rest: seq<Byte>)
    requires NumberOk(n)
    ensures var b := RenderNumber(n) + rest;
            b != [] && StartsNumber(b[0])
  {
    assert n.whole[0] in n.whole;
  }

  lemma ScalarComplete(v: Value, rest: seq<Byte>, depth: nat)
    requires IsScalar(v) && Ok(v, depth) && (v.Num? ==> EndsNumber(rest))
    ensures var b := Render(v) + rest;
            StartsValue(b) && b[0] != OPEN_BRACE && b[0] != OPEN_BRACKET && TakeScalar(b) == Got(v, rest)
  {
    hide NumberOk, RenderNumber, TakeNumber, TakeString, RenderUnits, UnitsOk;
    match v
    case Word(t) =>
      assert (t + rest)[..|t|] == t && (t + rest)[|t|..] == rest;
    case Num(n) =>
      TakeNumberComplete(n, rest);
      NumberStarts(n, rest);
    case Str(us) =>
      TakeStringComplete(us, rest);
  }

  lemma ValueStarts(v: Value, depth: nat, rest: seq<Byte>)
    requires Ok(v, depth)
    ensures StartsValue(Render(v) + rest)
  {
    hide RenderNumber, RenderItems, RenderMembers, NumberOk, UnitsOk;
    if v.Num? {
      NumberStarts(v.number, rest);
    }
  }

  lemma KeyStarts(us: seq<Unit>, afterKey: seq<Byte>, beforeValue: seq<Byte>, rest: seq<Byte>)
    ensures StartsValue(RenderKey(us, afterKey, beforeValue) + rest)
  {
  }

  lemma SpaceBreaks(s: seq<Byte>, rest: seq<Byte>)
    requires AllSpace(s) && (rest == [] || (!IsDigit(rest[0]) && rest[0] != DOT && !IsE(rest[0])))
    ensures EndsNumber(s + rest)
  {
    if s != [] {
      assert s[0] in s;
    }
  }

  /** Skipping from `s + rest` separates the two parts. */
  lemma Separates(s: seq<Byte>, rest: seq<Byte>)
    requires AllSpace(s) && (rest == [] || !Space(rest[0]))
    ensures Skip(s + rest) == rest && (s + rest)[..SpaceRun(s + rest)] == s
  {
    SkipsSpace(s, rest);
  }

  lemma {:induction false} ValueComplete(v: Value, rest: seq<Byte>, depth: nat)
    requires Ok(v, depth) && (v.Num? ==> EndsNumber(rest))
    ensures TakeValue(Render(v) + rest, depth) == Got(v, rest)
    decreases v, 0
  {
    hide TakeScalar, SpaceRun, Skip, AllSpace, TakeItems, TakeMembers, ItemsOk, MembersOk, RenderItems, RenderMembers;
    var b := Render(v) + rest;
    if IsScalar(v) {
      ScalarComplete(v, rest, depth);
    } else if v.EmptyArr? || v.EmptyObj? {
      var close := if v.EmptyArr? then CLOSE_BRACKET else CLOSE_BRACE;
      assert b[1..] == v.space + ([close] + rest);
      Separates(v.space, [close] + rest);
      assert ([close] + rest)[1..] == rest;
    } else if v.Arr? {
      var c := RenderItems(v.items) + [CLOSE_BRACKET] + rest;
      assert b[1..] == v.space + c;
      ItemsStart(v.items, depth + 1, [CLOSE_BRACKET] + rest);
      assert c == RenderItems(v.items) + ([CLOSE_BRACKET] + rest);
      Separates(v.space, c);
      ItemsComplete(v.items, rest, depth + 1);
    } else {
      var c := RenderMembers(v.members) + [CLOSE_BRACE] + rest;
      assert b[1..] == v.space + c;
      MembersStart(v.members, [CLOSE_BRACE] + rest);
      assert c == RenderMembers(v.members) + ([CLOSE_BRACE] + rest);
      Separates(v.space, c);
      MembersComplete(v.members, rest, depth + 1);
    }
  }

  lemma ItemsStart(items: Items, depth: nat, rest: seq<Byte>)
    requires ItemsOk(items, depth)
    ensures StartsValue(RenderItems(items) + rest)
  {
    hide Render, Ok;
    ValueStarts(items.value, depth, []);
    assert Render(items.value) + [] == Render(items.value);
  }

  lemma MembersStart(members: Members, rest: seq<Byte>)
    ensures StartsValue(RenderMembers(members) + rest)
  {
    hide RenderKey;
    KeyStarts(members.key, members.afterKey, members.beforeValue, []);
    var key := RenderKey(members.key, members.afterKey, members.beforeValue);
    assert key + [] == key;
  }

  lemma {:induction false} ItemsComplete(items: Items, rest: seq<Byte>, depth: nat)
    requires ItemsOk(items, depth)
    ensures TakeItems(RenderItems(items) + [CLOSE_BRACKET] + rest, depth) == Got(items, rest)
    decreases items, 1
  {
    hide TakeValue, Ok, Render, SpaceRun, Skip, AllSpace;
    var v, after := items.value, items.after;
    var end := [CLOSE_BRACKET] + rest;
    assert end[1..] == rest;
    if items.LastItem? {
      assert RenderItems(items) + [CLOSE_BRACKET] + rest == Render(v) + (after + end);
      SpaceBreaks(after, end);
      ValueComplete(v, after + end, depth);
      Separates(after, end);
    } else {
      var d := RenderItems(items.more) + [CLOSE_BRACKET] + rest;
      var c := [COMMA] + (items.before + d);
      assert c[1..] == items.before + d;
      Regroup(Render(v), after, items.before, RenderItems(items.more), [CLOSE_BRACKET], rest);
      SpaceBreaks(after, c);
      ValueComplete(v, after + c, depth);
      Separates(after, c);
      ItemsStart(items.more, depth, end);
      assert d == RenderItems(items.more) + end;
      Separates(items.before, d);
      ItemsComplete(items.more, rest, depth);
    }
  }

  lemma KeyComplete(us: seq<Unit>, afterKey: seq<Byte>, beforeValue: seq<Byte>, rest: seq<Byte>)
    requires KeyOk(us, afterKey, beforeValue) && StartsValue(rest)
    ensures TakeKey(RenderKey(us, afterKey, beforeValue) + rest) == Got(Key(us, afterKey, beforeValue), rest)
  {
    hide TakeString, RenderString, UnitsOk, SpaceRun, Skip, AllSpace;
    var c := [COLON] + (beforeValue + rest);
    assert c[1..] == beforeValue + rest;
    assert RenderKey(us, afterKey, beforeValue) + rest == RenderString(us) + (afterKey + c);
    TakeStringComplete(us, afterKey + c);
    Separates(afterKey, c);
    Separates(beforeValue, rest);
  }

  lemma {:induction false} MembersComplete(members: Members, rest: seq<Byte>, depth: nat)
    requires MembersOk(members, depth)
    ensures TakeMembers(RenderMembers(members) + [CLOSE_BRACE] + rest, depth) == Got(members, rest)
    decreases members, 1
  {
    hide TakeKey, RenderKey, KeyOk, TakeValue, Ok, Render, SpaceRun, Skip, AllSpace;
    var v, after := members.value, members.after;
    var key := RenderKey(members.key, members.afterKey, members.beforeValue);
    var end := [CLOSE_BRACE] + rest;
    assert end[1..] == rest;
    if members.LastMember? {
      var t := after + end;
      assert RenderMembers(members) + [CLOSE_BRACE] + rest == key + (Render(v) + t);
      ValueStarts(v, depth, t);
      KeyComplete(members.key, members.afterKey, members.beforeValue, Render(v) + t);
      SpaceBreaks(after, end);
      ValueComplete(v, t, depth);
      Separates(after, end);
    } else {
      var d := RenderMembers(members.more) + [CLOSE_BRACE] + rest;
      var c := [COMMA] + (members.before + d);
      assert c[1..] == members.before + d;
      Regroup(Render(v), after, members.before, RenderMembers(members.more), [CLOSE_BRACE], rest);
      var body := Render(v) + (after + ([COMMA] + (members.before + RenderMembers(members.more))));
      assert RenderMembers(members) + [CLOSE_BRACE] + rest == key + (body + [CLOSE_BRACE] + rest);
      ValueStarts(v, depth, after + c);
      KeyComplete(members.key, members.afterKey, members.beforeValue, Render(v) + (after + c));
      SpaceBreaks(after, c);
      ValueComplete(v, after + c, depth);
      Separates(after, c);
      MembersStart(members.more, end);
      assert d == RenderMembers(members.more) + end;
      Separates(members.before, d);
      MembersComplete(members.more, rest, depth);
    }
  }

  /** The acceptor recognises exactly the language. */
  lemma AcceptsExactlyJson(text: seq<Byte>)
    ensures Accepts(text) <==> IsJson(text)
  {
    hide TakeValue, Render, Ok, SpaceRun, Skip, AllSpace;
    if Accepts(text) {
      SpaceRunIs(text);
      var r := TakeValue(Skip(text), 0);
      ValueSound(Skip(text), 0);
      SpaceRunIs(r.rest);
      assert r.rest[..SpaceRun(r.rest)] + [] == r.rest[..SpaceRun(r.rest)];
      assert Spells(text, text[..SpaceRun(text)], r.value, r.rest);
    }
    if IsJson(text) {
      var before, v, after :| Spells(text, before, v, after);
      ValueStarts(v, 0, after);
      Separates(before, Render(v) + after);
      assert after + [] == after;
      SpaceBreaks(after, []);
      ValueComplete(v, after, 0);
      Separates(after, []);
    }
  }

  /** A text has one reading. */
  lemma OneReading(text: seq<Byte>, before: seq<Byte>, v: Value, after: seq<Byte>)
    requires Spells(text, before, v, after)
    ensures TakeValue(Skip(text), 0) == Got(v, after)
  {
    hide TakeValue, Render, Ok, SpaceRun, Skip, AllSpace;
    ValueStarts(v, 0, after);
    Separates(before, Render(v) + after);
    assert after + [] == after;
    SpaceBreaks(after, []);
    ValueComplete(v, after, 0);
  }

  // ------------------------------------------------------------------------------
  // How deep
  // ------------------------------------------------------------------------------

  /** Arrays in arrays. */
  function Nested(n: nat): seq<Byte> {
    if n == 0 then [] else [OPEN_BRACKET] + Nested(n - 1) + [CLOSE_BRACKET]
  }

  lemma NotSpace(b: seq<Byte>)
    requires b != [] && !Space(b[0])
    ensures Skip(b) == b
  {
  }

  /** An array of one value that is followed by its bracket. */
  lemma OneItem(c: seq<Byte>, inner: seq<Byte>, depth: nat)
    requires c != [] && !Space(c[0]) && c[0] != CLOSE_BRACKET && inner != [] && inner[0] == CLOSE_BRACKET
    requires TakeValue(c, depth + 1).Got? ==> TakeValue(c, depth + 1).rest == inner
    ensures var r := TakeArray([OPEN_BRACKET] + c, depth);
            (r.Got? <==> depth <= MAX_DEPTH && TakeValue(c, depth + 1).Got?) && (r.Got? ==> r.rest == inner[1..])
  {
    hide SpaceRun, Skip, TakeValue;
    assert ([OPEN_BRACKET] + c)[1..] == c;
    NotSpace(c);
    NotSpace(inner);
  }

  lemma {:induction false} NestIsTaken(n: nat, rest: seq<Byte>, depth: nat)
    requires 0 < n
    ensures var r := TakeValue(Nested(n) + rest, depth);
            (r.Got? <==> depth + n <= 129) && (r.Got? ==> r.rest == rest)
    decreases n
  {
    hide SpaceRun, Skip, TakeScalar, TakeArray;
    var b, inner := Nested(n) + rest, [CLOSE_BRACKET] + rest;
    var c := Nested(n - 1) + inner;
    assert b == [OPEN_BRACKET] + c;
    assert inner[1..] == rest;
    if 1 < n {
      NestIsTaken(n - 1, inner, depth + 1);
      assert c[0] == OPEN_BRACKET;
      OneItem(c, inner, depth);
    } else {
      assert c == inner;
      NoItem(inner, depth);
    }
  }

  lemma NoItem(inner: seq<Byte>, depth: nat)
    requires inner != [] && inner[0] == CLOSE_BRACKET
    ensures var r := TakeArray([OPEN_BRACKET] + inner, depth);
            (r.Got? <==> depth <= MAX_DEPTH) && (r.Got? ==> r.rest == inner[1..])
  {
    hide SpaceRun, Skip, TakeItems;
    assert ([OPEN_BRACKET] + inner)[1..] == inner;
    NotSpace(inner);
  }

  /** Arrays may be nested 129 deep, and no deeper. */
  lemma NestingBound(n: nat)
    ensures Accepts(Nested(n)) <==> 1 <= n <= 129
  {
    hide TakeValue;
    if 0 < n {
      NotSpace(Nested(n));
      NestIsTaken(n, [], 0);
      assert Nested(n) + [] == Nested(n);
    } else {
      NoText();
    }
  }

  lemma NoText()
    ensures !Accepts([])
  {
  }
}
