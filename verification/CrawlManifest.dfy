/** Picking the text of succeeded pages out of a crawl manifest while parsing it
    (ds4_parse_page, ds4_parse_pages, ds4_parse_root_object and ds4_crawl_extract_source in
    ds4_crawl_grounding.c). */
module CrawlManifest {
  import opened Wrappers
  import opened Bytes
  import Utf8
  import opened JsonGrammar
  import opened JsonLexis
  import opened JsonParse
  import opened JsonReader
  import opened PageSource

  const STATE: seq<Byte> := [0x73, 0x74, 0x61, 0x74, 0x65]
  const CONTENT: seq<Byte> := [0x63, 0x6f, 0x6e, 0x74, 0x65, 0x6e, 0x74]
  const PAGES: seq<Byte> := [0x70, 0x61, 0x67, 0x65, 0x73]
  const SUCCEEDED: seq<Byte> := [0x73, 0x75, 0x63, 0x63, 0x65, 0x65, 0x64, 0x65, 0x64]

  // ------------------------------------------------------------------------------
  // What a manifest says, read off its parse tree
  // ------------------------------------------------------------------------------

  predicate Is(t: Text, literal: seq<Byte>) {
    !t.containsNul && t.bytes == literal
  }

  /** The last string given for each of the two members of interest. */
  datatype Page = Page(state: Option<Text>, content: Option<Text>)

  const NEW_PAGE := Page(None, None)

  ghost function Noted(p: Page, key: Text, v: Value, depth: nat): Page
    requires Ok(v, depth)
  {
    if !v.Str? then p
    else if Is(key, STATE) then p.(state := Some(DecodeUnits(v.units)))
    else if Is(key, CONTENT) then p.(content := Some(DecodeUnits(v.units)))
    else p
  }

  ghost function PageOf(p: Page, members: Members, depth: nat): Page
    requires MembersOk(members, depth)
    decreases members
  {
    var q := Noted(p, DecodeUnits(members.key), members.value, depth);
    if members.LastMember? then q else PageOf(q, members.more, depth)
  }

  ghost function ObjectPage(v: Value, depth: nat): Page
    requires Ok(v, depth)
  {
    if v.Obj? then PageOf(NEW_PAGE, v.members, depth + 1) else NEW_PAGE
  }

  ghost function ItemPages(items: Items, depth: nat): seq<Page>
    requires ItemsOk(items, depth)
    decreases items
  {
    var here := if items.value.Obj? || items.value.EmptyObj? then [ObjectPage(items.value, depth)] else [];
    if items.LastItem? then here else here + ItemPages(items.more, depth)
  }

  ghost function ArrayPages(v: Value, depth: nat): seq<Page>
    requires Ok(v, depth)
  {
    if v.Arr? then ItemPages(v.items, depth + 1) else []
  }

  ghost function MemberPages(members: Members, depth: nat): seq<Page>
    requires MembersOk(members, depth)
    decreases members
  {
    var here := if Is(DecodeUnits(members.key), PAGES) then ArrayPages(members.value, depth) else [];
    if members.LastMember? then here else here + MemberPages(members.more, depth)
  }

  /** The pages of a manifest, in order: the objects in every array called "pages" at the top. */
  ghost function ManifestPages(v: Value): seq<Page>
    requires Ok(v, 0)
  {
    if v.Obj? then MemberPages(v.members, 1) else []
  }

  predicate HasNonspace(s: seq<Byte>) {
    exists b | b in s :: !IsSpace(b)
  }

  predicate Succeeded(p: Page) {
    p.state.Some? && p.content.Some? && Is(p.state.value, SUCCEEDED)
  }

  /** A succeeded page whose content has a NUL makes the whole manifest invalid. */
  predicate Rejected(p: Page) {
    Succeeded(p) && p.content.value.containsNul
  }

  predicate Kept(p: Page) {
    Succeeded(p) && !p.content.value.containsNul && HasNonspace(p.content.value.bytes)
  }

  ghost predicate AnyRejected(pages: seq<Page>) {
    exists p | p in pages :: Rejected(p)
  }

  function Texts(pages: seq<Page>): seq<seq<Byte>> {
    if pages == [] then []
    else (if Kept(pages[0]) then [pages[0].content.value.bytes] else []) + Texts(pages[1..])
  }

  datatype Outcome = Invalid | Empty | Extracted(source: Source)

  /** What extraction must give. */
  ghost function Meaning(text: seq<Byte>, max: nat): Outcome {
    if !Accepts(text) then Invalid
    else
      ValueSound(Skip(text), 0);
      var pages := ManifestPages(TakeValue(Skip(text), 0).value);
      if AnyRejected(pages) then Invalid
      else if Texts(pages) == [] then Empty
      else Extracted(Joined(Texts(pages), max))
  }

  // ------------------------------------------------------------------------------
  // Decoded strings are well-formed text
  // ------------------------------------------------------------------------------

  lemma UnitIsText(u: Unit)
    requires UnitOk(u)
    ensures Utf8.WellFormed(DecodeUnit(u))
  {
    hide HexValue, Utf8.Encode, Utf8.RawLength, IsHexDigit;
    match u
    case Plain(t) =>
      Utf8.OneCharacter(t);
      assert t[..|t|] == t;
    case Escape(m) => AsciiIsText([Unescape(m)]);
    case Hex(d) => if HexValue(d) != 0 { EncodingIsText(HexValue(d)); }
    case Pair(h, l) => EncodingIsText(0x1_0000 + (HexValue(h) - 0xd800) * 0x400 + (HexValue(l) - 0xdc00));
  }

  lemma EncodingIsText(cp: nat)
    requires Utf8.Scalar(cp)
    ensures Utf8.WellFormed(Utf8.Encode(cp))
  {
    hide Utf8.RawLength, Utf8.Encode;
    var e := Utf8.Encode(cp);
    Utf8.EncodingHasRawLength(cp, []);
    assert e + [] == e;
    Utf8.OneCharacter(e);
    assert e[..|e|] == e;
  }

  lemma {:induction false} DecodedIsText(us: seq<Unit>)
    requires UnitsOk(us)
    ensures Utf8.WellFormed(DecodeUnits(us).bytes)
  {
    hide UnitOk, DecodeUnit, IsNul, Utf8.RawLength;
    if us != [] {
      UnitIsText(us[0]);
      DecodedIsText(us[1..]);
      Utf8.WellFormedAppend(DecodeUnit(us[0]), DecodeUnits(us[1..]).bytes);
    }
  }

  /** Content that has been noted is text. */
  ghost predicate PageText(p: Page) {
    p.content.Some? ==> Utf8.WellFormed(p.content.value.bytes)
  }

  lemma NotedIsText(p: Page, key: Text, v: Value, depth: nat)
    requires Ok(v, depth) && PageText(p)
    ensures PageText(Noted(p, key, v, depth))
  {
    hide Utf8.WellFormed, UnitsOk, DecodeUnits;
    if v.Str? {
      DecodedIsText(v.units);
    }
  }

  lemma {:induction false} PageOfIsText(p: Page, members: Members, depth: nat)
    requires MembersOk(members, depth) && PageText(p)
    ensures PageText(PageOf(p, members, depth))
    decreases members
  {
    hide Noted, PageText, Ok;
    NotedIsText(p, DecodeUnits(members.key), members.value, depth);
    if members.Member? {
      PageOfIsText(Noted(p, DecodeUnits(members.key), members.value, depth), members.more, depth);
    }
  }

  // ------------------------------------------------------------------------------
  // Pages one after another
  // ------------------------------------------------------------------------------

  /** What has been gathered so far. */
  datatype Gathered = Gathered(source: Source, found: bool)

  const NOTHING := Gathered(EMPTY, false)

  function AddPage(g: Gathered, p: Page, max: nat): Option<Gathered>
    requires |g.source.bytes| <= max
  {
    if Rejected(p) then None
    else if Kept(p) then Some(Gathered(Append(g.source, p.content.value.bytes, max), true))
    else Some(g)
  }

  lemma AddPageFits(g: Gathered, p: Page, max: nat)
    requires |g.source.bytes| <= max
    ensures AddPage(g, p, max).Some? ==> |AddPage(g, p, max).value.source.bytes| <= max
  {
    hide Append;
    if Kept(p) {
      AppendFits(g.source, p.content.value.bytes, max);
    }
  }

  function AddPages(g: Gathered, pages: seq<Page>, max: nat): (r: Option<Gathered>)
    requires |g.source.bytes| <= max
    ensures r.Some? ==> |r.value.source.bytes| <= max
    decreases pages
  {
    if pages == [] then Some(g)
    else
      AddPageFits(g, pages[0], max);
      match AddPage(g, pages[0], max)
      case None => None
      case Some(h) => AddPages(h, pages[1..], max)
  }

  lemma {:induction false} AddPagesSplit(g: Gathered, s: seq<Page>, t: seq<Page>, max: nat)
    requires |g.source.bytes| <= max
    ensures AddPages(g, s + t, max) ==
            match AddPages(g, s, max) case None => None case Some(h) => AddPages(h, t, max)
    decreases s
  {
    hide AddPage;
    if s == [] {
      assert s + t == t;
    } else {
      assert (s + t)[1..] == s[1..] + t;
      AddPageFits(g, s[0], max);
      var h := AddPage(g, s[0], max);
      if h.Some? {
        AddPagesSplit(h.value, s[1..], t, max);
      }
    }
  }

  lemma OnePage(g: Gathered, p: Page, max: nat)
    requires |g.source.bytes| <= max
    ensures AddPages(g, [p], max) == AddPage(g, p, max)
  {
    hide AddPage;
    AddPageFits(g, p, max);
    assert [p][1..] == [];
  }

  lemma {:induction false} TextsAppend(pages: seq<Page>, p: Page)
    ensures Texts(pages + [p]) == Texts(pages) + (if Kept(p) then [p.content.value.bytes] else [])
  {
    hide Kept;
    if pages == [] {
      assert pages + [p] == [p] && [p][1..] == [];
    } else {
      assert (pages + [p])[1..] == pages[1..] + [p];
      TextsAppend(pages[1..], p);
    }
  }

  /** Adding the pages one by one gives the budgeted join of the kept ones, or nothing when one
      of them is rejected. */
  lemma {:induction false} AddsUp(pages: seq<Page>, max: nat)
    ensures AddPages(NOTHING, pages, max) ==
            if AnyRejected(pages) then None
            else Some(Gathered(Joined(Texts(pages), max), Texts(pages) != []))
    decreases |pages|
  {
    hide Append, Kept, Rejected;
    if pages != [] {
      var before, p := pages[..|pages| - 1], pages[|pages| - 1];
      assert pages == before + [p];
      AddsUp(before, max);
      AddPagesSplit(NOTHING, before, [p], max);
      assert AnyRejected(pages) <==> AnyRejected(before) || Rejected(p);
      if !AnyRejected(before) {
        OnePage(AddPages(NOTHING, before, max).value, p, max);
        TextsAppend(before, p);
        RejectedIsNotKept(p);
        if Kept(p) {
          assert Texts(pages)[..|Texts(before)|] == Texts(before);
          assert Joined(Texts(pages), max) == Append(Joined(Texts(before), max), p.content.value.bytes, max);
        } else {
          assert Texts(pages) == Texts(before);
        }
      }
    }
  }

  lemma RejectedIsNotKept(p: Page)
    ensures !(Rejected(p) && Kept(p))
    ensures Kept(p) ==> p.content.Some?
  {
  }
}
