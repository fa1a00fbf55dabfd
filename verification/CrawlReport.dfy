/** What a crawl's manifest comes to, from the characters of its pages: the text a crawler writes
    for them, escaped in any way, is read back as its succeeded pages
    (ds4_crawl_extract_source in ds4_crawl_grounding.c). */
module CrawlReport {
  import opened Wrappers
  import opened Bytes
  import Utf8
  import opened JsonGrammar
  import opened JsonParse
  import opened JsonSpelling
  import opened CrawlManifest
  import opened CrawlExtractor
  import PageSource

  /** State and content of a page in code points, and one way to spell them. */
  datatype Crawled = Crawled(state: seq<nat>, content: seq<nat>, stateParts: seq<seq<Byte>>, contentParts: seq<seq<Byte>>)

  ghost predicate IsSpelled(c: Crawled) {
    SpellsAll(c.stateParts, c.state) && SpellsAll(c.contentParts, c.content)
  }

  ghost predicate AllSpelled(cs: seq<Crawled>) {
    forall i | 0 <= i < |cs| :: IsSpelled(cs[i])
  }

  function PageBytes(c: Crawled): seq<Byte> {
    Ascii("{\"state\":\"") + Concat(c.stateParts) + Ascii("\",\"content\":\"") + Concat(c.contentParts) + Ascii("\"}")
  }

  function PagesBytes(cs: seq<Crawled>): seq<Byte> {
    if cs == [] then []
    else if |cs| == 1 then PageBytes(cs[0])
    else PageBytes(cs[0]) + Ascii(",") + PagesBytes(cs[1..])
  }

  function ManifestBytes(cs: seq<Crawled>): seq<Byte> {
    Ascii("{\"pages\":[") + PagesBytes(cs) + Ascii("]}")
  }

  // ------------------------------------------------------------------------------
  // What it should be read as
  // ------------------------------------------------------------------------------

  const WHITE: set<nat> := {9, 10, 11, 12, 13, 32}

  predicate IsWanted(c: Crawled) {
    c.state == Ascii("succeeded")
  }

  ghost predicate IsBlank(cps: seq<nat>) {
    forall cp | cp in cps :: cp in WHITE
  }

  ghost predicate AnyNul(cs: seq<Crawled>) {
    exists c | c in cs :: IsWanted(c) && 0 in c.content
  }

  ghost function WantedTexts(cs: seq<Crawled>): seq<seq<Byte>>
    requires forall i | 0 <= i < |cs| :: AllScalar(cs[i].content)
  {
    if cs == [] then []
    else
      assert AllScalar(cs[0].content);
      (if IsWanted(cs[0]) && 0 !in cs[0].content && !IsBlank(cs[0].content) then [EncodeAll(cs[0].content)] else [])
      + WantedTexts(cs[1..])
  }

  ghost predicate AllScalar(cps: seq<nat>) {
    forall cp | cp in cps :: Utf8.Scalar(cp)
  }

  // ------------------------------------------------------------------------------
  // Texts and their code points
  // ------------------------------------------------------------------------------

  /** Plain ASCII text is encoded only by its own characters. */
  lemma {:induction false} AsciiIsItself(cps: seq<nat>, t: seq<Byte>)
    requires AllScalar(cps) && forall b | b in t :: 0 < b < 0x80
    ensures EncodeAll(cps) == t && 0 !in cps <==> cps == t
  {
    if cps == [] {
    } else if t == [] {
      assert 0 !in cps ==> EncodeAll(cps) != [] by { assert cps[0] in cps; }
    } else {
      assert cps == [cps[0]] + cps[1..] && t == [t[0]] + t[1..];
      assert cps[0] in cps && forall b | b in t[1..] :: b in t;
      AsciiIsItself(cps[1..], t[1..]);
      if cps[0] != 0 {
        var e := Utf8.Encode(cps[0]);
        if EncodeAll(cps) == t {
          assert t[0] == e[0] == (e + EncodeAll(cps[1..]))[0];
          assert t[0] in t;
          assert e == [cps[0]];
          assert t[1..] == EncodeAll(cps[1..]);
        }
      }
    }
  }

  lemma NonspaceOf(s: seq<Byte>, t: seq<Byte>)
    ensures HasNonspace(s + t) <==> HasNonspace(s) || HasNonspace(t)
  {
    forall b ensures b in s + t <==> b in s || b in t {
    }
  }

  lemma {:induction false} BlankIsSpace(cps: seq<nat>)
    requires AllScalar(cps) && 0 !in cps
    ensures HasNonspace(EncodeAll(cps)) <==> !IsBlank(cps)
  {
    if cps != [] {
      var cp := cps[0];
      assert cp in cps && cps == [cp] + cps[1..];
      BlankIsSpace(cps[1..]);
      NonspaceOf(Utf8.Encode(cp), EncodeAll(cps[1..]));
      assert Utf8.Encode(cp)[0] in Utf8.Encode(cp);
      assert HasNonspace(Utf8.Encode(cp)) <==> cp !in WHITE;
    }
  }

  // ------------------------------------------------------------------------------
  // The parse tree of a manifest
  // ------------------------------------------------------------------------------

  /** A name of plain characters as a key. */
  lemma {:induction false} NameIsKey(t: seq<Byte>) returns (us: seq<Unit>)
    requires forall b | b in t :: 0x20 <= b < 0x80 && b != QUOTE && b != BACKSLASH
    ensures UnitsOk(us) && RenderUnits(us) == t && DecodeUnits(us) == Text(t, false)
  {
    if t == [] {
      us := [];
    } else {
      assert t[0] in t && forall b | b in t[1..] :: b in t;
      var rest := NameIsKey(t[1..]);
      us := [Plain([t[0]])] + rest;
      assert us[1..] == rest && t == [t[0]] + t[1..];
    }
  }

  ghost function TextOf(cps: seq<nat>): Text
    requires AllScalar(cps)
  {
    Text(EncodeAll(cps), 0 in cps)
  }

  /** The units of a page's two strings and of the three names. */
  ghost predicate UnitsFor(us: seq<Unit>, parts: seq<seq<Byte>>, cps: seq<nat>) {
    UnitsOk(us) && RenderUnits(us) == Concat(parts) && AllScalar(cps) && DecodeUnits(us) == TextOf(cps)
  }

  ghost predicate IsKey(us: seq<Unit>, name: seq<Byte>) {
    UnitsOk(us) && RenderUnits(us) == name && DecodeUnits(us) == Text(name, false)
  }

  ghost function PageValue(stateKey: seq<Unit>, contentKey: seq<Unit>, state: seq<Unit>, content: seq<Unit>): Value {
    Obj([], Member(stateKey, [], [], Str(state), [], [], LastMember(contentKey, [], [], Str(content), [])))
  }

  lemma Names()
    ensures STATE == Ascii("state") && CONTENT == Ascii("content") && PAGES == Ascii("pages")
    ensures SUCCEEDED == Ascii("succeeded")
    ensures PageSource.SEPARATOR == Ascii("\n\n--- PAGE BREAK ---\n\n")
  {
  }

  /** The value of one page. */
  lemma PageIsRead(stateKey: seq<Unit>, contentKey: seq<Unit>, state: seq<Unit>, content: seq<Unit>, c: Crawled)
    requires IsKey(stateKey, STATE) && IsKey(contentKey, CONTENT)
    requires UnitsFor(state, c.stateParts, c.state) && UnitsFor(content, c.contentParts, c.content)
    ensures var v := PageValue(stateKey, contentKey, state, content);
            && Ok(v, 2) && Render(v) == PageBytes(c)
            && ObjectPage(v, 2) == Page(Some(TextOf(c.state)), Some(TextOf(c.content)))
  {
    hide UnitsOk, RenderUnits, DecodeUnits;
    var members := Member(stateKey, [], [], Str(state), [], [], LastMember(contentKey, [], [], Str(content), []));
    assert MembersOk(members.more, 3);
    assert MembersOk(members, 3);
    assert PageOf(NEW_PAGE, members, 3) == Page(Some(TextOf(c.state)), Some(TextOf(c.content)));
    PageRenders(stateKey, contentKey, state, content, c);
  }

  /** The bytes around the two strings of a page. */
  lemma Frames()
    ensures Ascii("{\"state\":\"") == [OPEN_BRACE, QUOTE] + STATE + [QUOTE, COLON, QUOTE]
    ensures Ascii("\",\"content\":\"") == [QUOTE, COMMA, QUOTE] + CONTENT + [QUOTE, COLON, QUOTE]
    ensures Ascii("\"}") == [QUOTE, CLOSE_BRACE]
  {
  }

  lemma MemberRenders(key: seq<Unit>, name: seq<Byte>, value: seq<Unit>, text: seq<Byte>)
    requires RenderUnits(key) == name && RenderUnits(value) == text
    ensures RenderKey(key, [], []) + Render(Str(value)) == [QUOTE] + name + [QUOTE, COLON, QUOTE] + text + [QUOTE]
  {
    hide RenderUnits;
    assert RenderKey(key, [], []) == [QUOTE] + name + [QUOTE, COLON];
    assert Render(Str(value)) == [QUOTE] + text + [QUOTE];
  }

  lemma WithoutSpace(key: seq<Byte>, value: seq<Byte>, more: seq<Byte>)
    ensures key + (value + []) == key + value
    ensures key + (value + ([] + ([COMMA] + ([] + more)))) == key + value + ([COMMA] + more)
  {
    assert value + [] == value && [] + more == more && [] + ([COMMA] + more) == [COMMA] + more;
  }

  lemma Gather(m: seq<Byte>, n: seq<Byte>, a: seq<Byte>, b: seq<Byte>)
    ensures var first, second := [QUOTE] + m + [QUOTE, COLON, QUOTE] + a + [QUOTE], [QUOTE] + n + [QUOTE, COLON, QUOTE] + b + [QUOTE];
            [OPEN_BRACE] + ([] + (first + ([COMMA] + second) + [CLOSE_BRACE])) ==
            ([OPEN_BRACE, QUOTE] + m + [QUOTE, COLON, QUOTE]) + a + ([QUOTE, COMMA, QUOTE] + n + [QUOTE, COLON, QUOTE]) + b + [QUOTE, CLOSE_BRACE]
  {
    var p := [OPEN_BRACE] + ([QUOTE] + m + [QUOTE, COLON, QUOTE] + a);
    assert p == ([OPEN_BRACE, QUOTE] + m + [QUOTE, COLON, QUOTE]) + a;
    var q := [QUOTE] + ([COMMA] + ([QUOTE] + n + [QUOTE, COLON, QUOTE]));
    assert q == [QUOTE, COMMA, QUOTE] + n + [QUOTE, COLON, QUOTE];
    var e := [QUOTE] + [CLOSE_BRACE];
    assert e == [QUOTE, CLOSE_BRACE];
  }

  lemma PageRenders(stateKey: seq<Unit>, contentKey: seq<Unit>, state: seq<Unit>, content: seq<Unit>, c: Crawled)
    requires RenderUnits(stateKey) == STATE && RenderUnits(contentKey) == CONTENT
    requires RenderUnits(state) == Concat(c.stateParts) && RenderUnits(content) == Concat(c.contentParts)
    ensures Render(PageValue(stateKey, contentKey, state, content)) == PageBytes(c)
  {
    hide RenderUnits, Concat, RenderKey, STATE, CONTENT, Ascii;
    var a, b := Concat(c.stateParts), Concat(c.contentParts);
    var last := LastMember(contentKey, [], [], Str(content), []);
    var members := Member(stateKey, [], [], Str(state), [], [], last);
    MemberRenders(stateKey, STATE, state, a);
    MemberRenders(contentKey, CONTENT, content, b);
    Frames();
    var first, second := RenderKey(stateKey, [], []) + Render(Str(state)), RenderKey(contentKey, [], []) + Render(Str(content));
    WithoutSpace(RenderKey(contentKey, [], []), Render(Str(content)), []);
    WithoutSpace(RenderKey(stateKey, [], []), Render(Str(state)), second);
    assert RenderMembers(last) == second;
    assert RenderMembers(members) == first + ([COMMA] + second);
    Gather(STATE, CONTENT, a, b);
  }

  // ------------------------------------------------------------------------------
  // The whole manifest
  // ------------------------------------------------------------------------------

  ghost predicate PagesAre(pages: seq<Page>, cs: seq<Crawled>) {
    && |pages| == |cs|
    && forall i | 0 <= i < |cs| ::
         && AllScalar(cs[i].state) && AllScalar(cs[i].content)
         && pages[i] == Page(Some(TextOf(cs[i].state)), Some(TextOf(cs[i].content)))
  }

  lemma UnitsOfParts(parts: seq<seq<Byte>>, cps: seq<nat>) returns (us: seq<Unit>)
    requires SpellsAll(parts, cps)
    ensures UnitsFor(us, parts, cps)
  {
    us := SpellingsAreRead(parts, cps);
  }

  lemma PageValueOf(stateKey: seq<Unit>, contentKey: seq<Unit>, c: Crawled) returns (v: Value)
    requires IsKey(stateKey, STATE) && IsKey(contentKey, CONTENT) && IsSpelled(c)
    ensures v.Obj? && Ok(v, 2) && Render(v) == PageBytes(c) && PagesAre([ObjectPage(v, 2)], [c])
  {
    hide SpellsAll, UnitsOk, Render, STATE, CONTENT;
    var state := UnitsOfParts(c.stateParts, c.state);
    var content := UnitsOfParts(c.contentParts, c.content);
    v := PageValue(stateKey, contentKey, state, content);
    PageIsRead(stateKey, contentKey, state, content, c);
  }

  lemma {:induction false} ItemsAreRead(stateKey: seq<Unit>, contentKey: seq<Unit>, cs: seq<Crawled>) returns (items: Items)
    requires IsKey(stateKey, STATE) && IsKey(contentKey, CONTENT) && AllSpelled(cs) && cs != []
    ensures ItemsOk(items, 2) && RenderItems(items) == PagesBytes(cs) && PagesAre(ItemPages(items, 2), cs)
    decreases |cs|
  {
    hide IsKey, IsSpelled, PageBytes, ObjectPage, TextOf, Render, AllScalar, STATE, CONTENT;
    var v := PageValueOf(stateKey, contentKey, cs[0]);
    if |cs| == 1 {
      items := LastItem(v, []);
      assert cs == [cs[0]];
      assert Render(v) + [] == Render(v);
      assert AllSpace([]);
      assert ItemPages(items, 2) == [ObjectPage(v, 2)];
      assert PagesAre(ItemPages(items, 2), [cs[0]]);
    } else {
      var more := ItemsAreRead(stateKey, contentKey, cs[1..]);
      items := Item(v, [], [], more);
      ItemSpelling(Render(v), RenderItems(more));
      assert AllSpace([]);
      assert ItemPages(items, 2) == [ObjectPage(v, 2)] + ItemPages(more, 2);
      PagesTogether(ObjectPage(v, 2), ItemPages(more, 2), cs);
    }
  }

  lemma PagesTogether(p: Page, more: seq<Page>, cs: seq<Crawled>)
    requires cs != [] && PagesAre([p], [cs[0]]) && PagesAre(more, cs[1..])
    ensures PagesAre([p] + more, cs)
  {
    hide TextOf, AllScalar;
    forall i | 0 <= i < |cs|
      ensures AllScalar(cs[i].state) && AllScalar(cs[i].content)
      ensures ([p] + more)[i] == Page(Some(TextOf(cs[i].state)), Some(TextOf(cs[i].content)))
    {
      if i == 0 {
        assert [cs[0]][0] == cs[0] && [p][0] == p;
      } else {
        assert cs[1..][i - 1] == cs[i] && more[i - 1] == ([p] + more)[i];
      }
    }
  }

  lemma ItemSpelling(v: seq<Byte>, more: seq<Byte>)
    ensures v + ([] + ([COMMA] + ([] + more))) == v + Ascii(",") + more
  {
    assert Ascii(",") == [COMMA];
    assert [] + ([COMMA] + ([] + more)) == [COMMA] + more;
  }

  /** What the pages of a manifest give. */
  lemma {:induction false} TextsAreWanted(pages: seq<Page>, cs: seq<Crawled>)
    requires PagesAre(pages, cs)
    ensures forall i | 0 <= i < |cs| :: AllScalar(cs[i].content)
    ensures Texts(pages) == WantedTexts(cs) && (AnyRejected(pages) <==> AnyNul(cs))
  {
    hide EncodeAll, HasNonspace, IsBlank, SUCCEEDED;
    if cs != [] {
      TextsAreWanted(pages[1..], cs[1..]);
      assert pages == [pages[0]] + pages[1..] && cs == [cs[0]] + cs[1..];
      PageIsWanted(pages[0], cs[0]);
    }
  }

  lemma PageIsWanted(p: Page, c: Crawled)
    requires PagesAre([p], [c])
    ensures AllScalar(c.content) && p.content.Some? && p.content.value.bytes == EncodeAll(c.content)
    ensures Rejected(p) <==> IsWanted(c) && 0 in c.content
    ensures Kept(p) <==> IsWanted(c) && 0 !in c.content && !IsBlank(c.content)
  {
    hide EncodeAll, HasNonspace, IsBlank, STATE, CONTENT;
    assert [p][0] == p && [c][0] == c;
    Names();
    assert forall b | b in Ascii("succeeded") :: 0 < b < 0x80;
    AsciiIsItself(c.state, SUCCEEDED);
    if 0 !in c.content {
      BlankIsSpace(c.content);
    }
  }

  /** A written manifest is read as it was meant, however its strings are escaped: it is invalid
      when a succeeded page has a NUL, and gives the succeeded pages that are not blank. */
  lemma WrittenManifestIsRead(cs: seq<Crawled>, max: nat)
    requires AllSpelled(cs)
    ensures forall i | 0 <= i < |cs| :: AllScalar(cs[i].content)
    ensures Meaning(ManifestBytes(cs), max) ==
            if AnyNul(cs) then Invalid
            else if WantedTexts(cs) == [] then Empty
            else Extracted(PageSource.Joined(WantedTexts(cs), max))
  {
    hide Meaning, Spells, Texts, ManifestPages, PageSource.Joined, AnyRejected, AnyNul, WantedTexts, PagesAre, ManifestBytes, IsSpelled;
    var v, pages := ManifestIsRead(cs);
    TextsAreWanted(pages, cs);
    MeaningOf(ManifestBytes(cs), max, v);
  }

  lemma MeaningOf(text: seq<Byte>, max: nat, v: Value)
    requires Spells(text, [], v, [])
    ensures Meaning(text, max) ==
            var pages := ManifestPages(v);
            if AnyRejected(pages) then Invalid
            else if Texts(pages) == [] then Empty
            else Extracted(PageSource.Joined(Texts(pages), max))
  {
    hide TakeValue, Render, AllSpace, Texts, MemberPages, PageSource.Joined, AnyRejected, ManifestPages, Ok;
    OneReading(text, [], v, []);
    AcceptsExactlyJson(text);
    assert IsJson(text);
  }

  lemma ManifestIsRead(cs: seq<Crawled>) returns (v: Value, pages: seq<Page>)
    requires AllSpelled(cs)
    ensures Spells(ManifestBytes(cs), [], v, []) && PagesAre(pages, cs)
    ensures ManifestPages(v) == pages
  {
    hide IsSpelled, PagesBytes, Ok, ArrayPages, ManifestPages, Render;
    PlainNames();
    var pagesKey := NameIsKey(PAGES);
    var list: Value;
    list, pages := PageListIsRead(cs);
    v := Obj([], LastMember(pagesKey, [], [], list, []));
    RootIsRead(pagesKey, list);
    RootRenders(pagesKey, list, PagesBytes(cs));
  }

  lemma PlainNames()
    ensures forall b | b in STATE + CONTENT + PAGES :: 0x20 <= b < 0x80 && b != QUOTE && b != BACKSLASH
  {
  }

  lemma PageListIsRead(cs: seq<Crawled>) returns (list: Value, pages: seq<Page>)
    requires AllSpelled(cs)
    ensures Ok(list, 1) && Render(list) == [OPEN_BRACKET] + PagesBytes(cs) + [CLOSE_BRACKET]
    ensures ArrayPages(list, 1) == pages && PagesAre(pages, cs)
  {
    hide IsSpelled, PageBytes, ObjectPage, TextOf, AllScalar, RenderItems;
    assert AllSpace([]);
    if cs == [] {
      list, pages := EmptyArr([]), [];
    } else {
      PlainNames();
      var stateKey := NameIsKey(STATE);
      var contentKey := NameIsKey(CONTENT);
      var items := ItemsAreRead(stateKey, contentKey, cs);
      list, pages := Arr([], items), ItemPages(items, 2);
      assert [] + (PagesBytes(cs) + [CLOSE_BRACKET]) == PagesBytes(cs) + [CLOSE_BRACKET];
    }
  }

  lemma RootIsRead(pagesKey: seq<Unit>, list: Value)
    requires IsKey(pagesKey, PAGES) && Ok(list, 1)
    ensures var v := Obj([], LastMember(pagesKey, [], [], list, [])); Ok(v, 0) && ManifestPages(v) == ArrayPages(list, 1)
  {
    hide UnitsOk, RenderUnits, DecodeUnits, ArrayPages;
    var members := LastMember(pagesKey, [], [], list, []);
    assert MembersOk(members, 1);
    assert MemberPages(members, 1) == ArrayPages(list, 1);
  }

  lemma RootFrame()
    ensures Ascii("{\"pages\":[") == [OPEN_BRACE, QUOTE] + PAGES + [QUOTE, COLON, OPEN_BRACKET]
    ensures Ascii("]}") == [CLOSE_BRACKET, CLOSE_BRACE]
  {
  }

  lemma KeyRenders(key: seq<Unit>, name: seq<Byte>)
    requires RenderUnits(key) == name
    ensures RenderKey(key, [], []) == [QUOTE] + name + [QUOTE, COLON]
  {
    hide RenderUnits;
  }

  lemma RootRenders(pagesKey: seq<Unit>, list: Value, inner: seq<Byte>)
    requires IsKey(pagesKey, PAGES) && Render(list) == [OPEN_BRACKET] + inner + [CLOSE_BRACKET]
    ensures [] + (Render(Obj([], LastMember(pagesKey, [], [], list, []))) + []) == Ascii("{\"pages\":[") + inner + Ascii("]}")
  {
    hide RenderUnits, UnitsOk, DecodeUnits, RenderKey, PAGES, Ascii;
    var members := LastMember(pagesKey, [], [], list, []);
    var key, body := RenderKey(pagesKey, [], []), Render(list);
    KeyRenders(pagesKey, PAGES);
    WithoutSpace(key, body, []);
    assert RenderMembers(members) == key + body;
    RootFrame();
    GatherRoot(PAGES, inner);
  }

  lemma GatherRoot(m: seq<Byte>, inner: seq<Byte>)
    ensures var body := [QUOTE] + m + [QUOTE, COLON] + ([OPEN_BRACKET] + inner + [CLOSE_BRACKET]);
            [] + ([OPEN_BRACE] + ([] + (body + [CLOSE_BRACE])) + []) ==
            [OPEN_BRACE, QUOTE] + m + [QUOTE, COLON, OPEN_BRACKET] + inner + [CLOSE_BRACKET, CLOSE_BRACE]
  {
    assert [OPEN_BRACE] + ([QUOTE] + m + [QUOTE, COLON]) + [OPEN_BRACKET] ==
           [OPEN_BRACE, QUOTE] + m + [QUOTE, COLON, OPEN_BRACKET];
  }

  // ------------------------------------------------------------------------------
  // Members given more than once
  // ------------------------------------------------------------------------------

  function Listed(members: Members): seq<(seq<Unit>, Value)>
    decreases members
  {
    [(members.key, members.value)] + if members.LastMember? then [] else Listed(members.more)
  }

  /** A member of that name whose value is a string. */
  ghost predicate Gives(m: (seq<Unit>, Value), name: seq<Byte>) {
    UnitsOk(m.0) && DecodeUnits(m.0) == Text(name, false) && m.1.Str? && UnitsOk(m.1.units)
  }

  ghost predicate NoneBehind(list: seq<(seq<Unit>, Value)>, k: int, name: seq<Byte>)
    requires -1 <= k
  {
    forall j | k < j < |list| :: !Gives(list[j], name)
  }

  /** The last string of that name, or what was there before when there is none. */
  ghost predicate LastSays(list: seq<(seq<Unit>, Value)>, name: seq<Byte>, was: Option<Text>, now: Option<Text>) {
    || (NoneBehind(list, -1, name) && now == was)
    || (exists k | 0 <= k < |list| ::
          NoneBehind(list, k, name) && Gives(list[k], name) && now == Some(DecodeUnits(list[k].1.units)))
  }

  lemma OneMore(m: (seq<Unit>, Value), more: seq<(seq<Unit>, Value)>, name: seq<Byte>, was: Option<Text>, now: Option<Text>)
    requires LastSays(more, name, if Gives(m, name) then Some(DecodeUnits(m.1.units)) else was, now)
    ensures LastSays([m] + more, name, was, now)
  {
    hide Gives, DecodeUnits;
    var list := [m] + more;
    if NoneBehind(more, -1, name) {
      assert NoneBehind(list, 0, name);
      assert list[0] == m;
      assert !Gives(m, name) ==> NoneBehind(list, -1, name);
    }
    forall k | 0 <= k < |more| && NoneBehind(more, k, name) && Gives(more[k], name)
      ensures NoneBehind(list, k + 1, name) && list[k + 1] == more[k]
    {
    }
  }

  /** What a page says is what the last string of that name says; other values and other names
      are passed over. */
  lemma {:induction false} LastStringCounts(p: Page, members: Members, depth: nat)
    requires MembersOk(members, depth)
    ensures LastSays(Listed(members), Ascii("state"), p.state, PageOf(p, members, depth).state)
    ensures LastSays(Listed(members), Ascii("content"), p.content, PageOf(p, members, depth).content)
    decreases members
  {
    hide DecodeUnits, UnitsOk, LastSays, Noted, Gives;
    var m, next := (members.key, members.value), Noted(p, DecodeUnits(members.key), members.value, depth);
    var more := if members.LastMember? then [] else Listed(members.more);
    var q := PageOf(p, members, depth);
    MemberCounts(p, members, depth);
    if members.Member? {
      LastStringCounts(next, members.more, depth);
    } else {
      NothingSaid(Ascii("state"), q.state);
      NothingSaid(Ascii("content"), q.content);
    }
    OneMore(m, more, Ascii("state"), p.state, q.state);
    OneMore(m, more, Ascii("content"), p.content, q.content);
  }

  lemma NothingSaid(name: seq<Byte>, now: Option<Text>)
    ensures LastSays([], name, now, now)
  {
    assert NoneBehind([], -1, name);
  }

  /** One member changes what is said of its own name only. */
  lemma MemberCounts(p: Page, members: Members, depth: nat)
    requires MembersOk(members, depth)
    ensures var m, q := (members.key, members.value), Noted(p, DecodeUnits(members.key), members.value, depth);
            && q.state == (if Gives(m, Ascii("state")) then Some(DecodeUnits(members.value.units)) else p.state)
            && q.content == (if Gives(m, Ascii("content")) then Some(DecodeUnits(members.value.units)) else p.content)
  {
    hide DecodeUnits, UnitsOk;
    Names();
    assert Ascii("state")[0] != Ascii("content")[0];
  }
}
