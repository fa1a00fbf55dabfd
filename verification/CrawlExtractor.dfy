/** The walkers of the manifest parser (ds4_append_page, ds4_parse_page, ds4_parse_pages,
    ds4_parse_root_object and ds4_crawl_extract_source in ds4_crawl_grounding.c). */
module CrawlExtractor {
  import opened Wrappers
  import opened Bytes
  import Utf8
  import opened JsonGrammar
  import opened JsonLexis
  import opened JsonParse
  import opened JsonReader
  import opened PageSource
  import opened CrawlManifest

  // ------------------------------------------------------------------------------
  // Parse results together with what is gathered from them
  // ------------------------------------------------------------------------------

  /** The page that the members at the front of `b` complete, and what follows the object. */
  ghost function PageRead(p: Page, b: seq<Byte>, depth: nat): Option<(Page, seq<Byte>)> {
    var r := TakeMembers(b, depth);
    if r.Got? then
      MembersSound(b, depth);
      Some((PageOf(p, r.value, depth), r.rest))
    else None
  }

  ghost function PagesRead(g: Gathered, b: seq<Byte>, depth: nat, max: nat): Option<(Gathered, seq<Byte>)>
    requires |g.source.bytes| <= max
  {
    var r := TakeItems(b, depth);
    if r.Got? then
      ItemsSound(b, depth);
      var h := AddPages(g, ItemPages(r.value, depth), max);
      if h.Some? then Some((h.value, r.rest)) else None
    else None
  }

  ghost function RootRead(g: Gathered, b: seq<Byte>, max: nat): Option<(Gathered, seq<Byte>)>
    requires |g.source.bytes| <= max
  {
    var r := TakeMembers(b, 1);
    if r.Got? then
      MembersSound(b, 1);
      var h := AddPages(g, MemberPages(r.value, 1), max);
      if h.Some? then Some((h.value, r.rest)) else None
    else None
  }

  /** One turn of the page loop. */
  ghost function AfterPageMember(p: Page, c: seq<Byte>, depth: nat): Option<(Page, seq<Byte>)> {
    if c == [] then None
    else if c[0] == CLOSE_BRACE then Some((p, c[1..]))
    else if c[0] != COMMA then None
    else PageRead(p, Skip(c[1..]), depth)
  }

  lemma PageStep(p: Page, b: seq<Byte>, depth: nat)
    ensures TakeKey(b).Short? ==> PageRead(p, b, depth) == None
    ensures TakeKey(b).Got? && TakeValue(TakeKey(b).rest, depth).Short? ==> PageRead(p, b, depth) == None
    ensures TakeKey(b).Got? && TakeValue(TakeKey(b).rest, depth).Got? ==>
              var k, r := TakeKey(b).value, TakeValue(TakeKey(b).rest, depth);
              && Ok(r.value, depth) && UnitsOk(k.units)
              && PageRead(p, b, depth) == AfterPageMember(Noted(p, DecodeUnits(k.units), r.value, depth), Skip(r.rest), depth)
  {
    hide TakeKey, TakeValue, SpaceRun, Noted, DecodeUnits, Ok;
    if TakeKey(b).Got? && TakeValue(TakeKey(b).rest, depth).Got? {
      KeySound(b);
      ValueSound(TakeKey(b).rest, depth);
    }
  }

  /** What a value in the pages array contributes. */
  ghost function ValuePages(v: Value, depth: nat): seq<Page>
    requires Ok(v, depth)
  {
    if v.Obj? || v.EmptyObj? then [ObjectPage(v, depth)] else []
  }

  ghost function AfterPage(g: Option<Gathered>, c: seq<Byte>, depth: nat, max: nat): Option<(Gathered, seq<Byte>)>
    requires g.Some? ==> |g.value.source.bytes| <= max
  {
    if g.None? || c == [] then None
    else if c[0] == CLOSE_BRACKET then Some((g.value, c[1..]))
    else if c[0] != COMMA then None
    else PagesRead(g.value, Skip(c[1..]), depth, max)
  }

  lemma PagesStep(g: Gathered, b: seq<Byte>, depth: nat, max: nat)
    requires |g.source.bytes| <= max
    ensures TakeValue(b, depth).Short? ==> PagesRead(g, b, depth, max) == None
    ensures TakeValue(b, depth).Got? ==>
              var r := TakeValue(b, depth);
              && Ok(r.value, depth)
              && PagesRead(g, b, depth, max) ==
                 AfterPage(AddPages(g, ValuePages(r.value, depth), max), Skip(r.rest), depth, max)
  {
    hide TakeValue, SpaceRun, Ok, AddPages, ObjectPage;
    if TakeValue(b, depth).Got? {
      ValueSound(b, depth);
      var r, c := TakeValue(b, depth), Skip(TakeValue(b, depth).rest);
      if c != [] && c[0] == COMMA && TakeItems(b, depth).Got? {
        ItemsSound(b, depth);
        ItemsSound(Skip(c[1..]), depth);
        AddPagesSplit(g, ValuePages(r.value, depth), ItemPages(TakeItems(Skip(c[1..]), depth).value, depth), max);
      } else if c != [] && c[0] == CLOSE_BRACKET {
        ItemsSound(b, depth);
      }
    }
  }

  /** What a member of the root object contributes. */
  ghost function RootPages(k: Text, v: Value): seq<Page>
    requires Ok(v, 1)
  {
    if Is(k, PAGES) then ArrayPages(v, 1) else []
  }

  ghost function AfterRootMember(g: Option<Gathered>, c: seq<Byte>, max: nat): Option<(Gathered, seq<Byte>)>
    requires g.Some? ==> |g.value.source.bytes| <= max
  {
    if g.None? || c == [] then None
    else if c[0] == CLOSE_BRACE then Some((g.value, c[1..]))
    else if c[0] != COMMA then None
    else RootRead(g.value, Skip(c[1..]), max)
  }

  lemma RootStep(g: Gathered, b: seq<Byte>, max: nat)
    requires |g.source.bytes| <= max
    ensures TakeKey(b).Short? ==> RootRead(g, b, max) == None
    ensures TakeKey(b).Got? && TakeValue(TakeKey(b).rest, 1).Short? ==> RootRead(g, b, max) == None
    ensures TakeKey(b).Got? && TakeValue(TakeKey(b).rest, 1).Got? ==>
              var k, r := TakeKey(b).value, TakeValue(TakeKey(b).rest, 1);
              && Ok(r.value, 1) && UnitsOk(k.units)
              && RootRead(g, b, max) ==
                 AfterRootMember(AddPages(g, RootPages(DecodeUnits(k.units), r.value), max), Skip(r.rest), max)
  {
    hide TakeKey, TakeValue, SpaceRun, Ok, AddPages, ArrayPages, DecodeUnits, Is;
    if TakeKey(b).Got? && TakeValue(TakeKey(b).rest, 1).Got? {
      KeySound(b);
      ValueSound(TakeKey(b).rest, 1);
      var k, r := TakeKey(b).value, TakeValue(TakeKey(b).rest, 1);
      var c := Skip(r.rest);
      if c != [] && c[0] == COMMA && TakeMembers(b, 1).Got? {
        MembersSound(b, 1);
        MembersSound(Skip(c[1..]), 1);
        AddPagesSplit(g, RootPages(DecodeUnits(k.units), r.value), MemberPages(TakeMembers(Skip(c[1..]), 1).value, 1), max);
      } else if c != [] && c[0] == CLOSE_BRACE {
        MembersSound(b, 1);
      }
    }
  }

  // ------------------------------------------------------------------------------
  // Entering and leaving containers
  // ------------------------------------------------------------------------------

  lemma NothingFits(content: seq<Byte>, room: int)
    requires content != [] && 0 < Utf8.RawLength(content) && room < Utf8.RawLength(content)
    ensures 0 <= room ==> FitChars(content, room) == 0
  {
  }

  lemma SomethingFits(content: seq<Byte>, room: nat)
    requires PageOk(content)
    ensures 0 < FitChars(content, room) <==> Utf8.RawLength(content) <= room
    ensures content[0..] == content && content[..0] == []
  {
  }

  /** One turn of the copying loop. */
  lemma CopyStep(content: seq<Byte>, offset: nat, room: nat)
    requires offset < |content| && Utf8.WellFormed(content[offset..])
    ensures var length := Utf8.LeadLength(content[offset..]);
            && 0 < length <= |content| - offset
            && (room < length ==> FitChars(content[offset..], room) == 0)
            && (length <= room ==>
                  && FitChars(content[offset..], room) == length + FitChars(content[offset + length..], room - length)
                  && Utf8.WellFormed(content[offset + length..])
                  && content[..offset] + content[offset..offset + length] == content[..offset + length])
  {
    hide Utf8.RawLength, Utf8.LeadLength;
    var rest := content[offset..];
    Utf8.LeadLengthIsRawLength(rest);
    var length := Utf8.LeadLength(rest);
    assert rest[length..] == content[offset + length..];
  }

  lemma NoneLeft(content: seq<Byte>, offset: nat, room: nat)
    requires offset == |content|
    ensures FitChars(content[offset..], room) == 0 && content[..offset] == content
  {
  }

  lemma EmptyPageIsText()
    ensures PageText(NEW_PAGE)
  {
  }

  /** An object after its opening brace. */
  lemma ObjectRead(b: seq<Byte>, depth: nat)
    requires b != [] && b[0] == OPEN_BRACE && depth <= MAX_DEPTH
    ensures var r, c := TakeValue(b, depth), Skip(b[1..]);
            if c != [] && c[0] == CLOSE_BRACE then
              r.Got? && r.rest == c[1..] && Ok(r.value, depth) && ValuePages(r.value, depth) == [NEW_PAGE]
            else if PageRead(NEW_PAGE, c, depth + 1).None? then r.Short?
            else
              && r.Got? && r.rest == PageRead(NEW_PAGE, c, depth + 1).value.1 && Ok(r.value, depth)
              && ValuePages(r.value, depth) == [PageRead(NEW_PAGE, c, depth + 1).value.0]
  {
    hide TakeMembers, SpaceRun, AllSpace, PageOf;
    SpaceRunIs(b[1..]);
    MembersFound(Skip(b[1..]), depth + 1);
  }

  lemma MembersFound(c: seq<Byte>, depth: nat)
    ensures TakeMembers(c, depth).Got? ==> MembersOk(TakeMembers(c, depth).value, depth)
  {
    if TakeMembers(c, depth).Got? {
      MembersSound(c, depth);
    }
  }

  lemma ItemsFound(c: seq<Byte>, depth: nat)
    ensures TakeItems(c, depth).Got? ==> ItemsOk(TakeItems(c, depth).value, depth)
  {
    if TakeItems(c, depth).Got? {
      ItemsSound(c, depth);
    }
  }

  lemma NoneAdded(g: Gathered, max: nat)
    requires |g.source.bytes| <= max
    ensures AddPages(g, [], max) == Some(g)
  {
  }

  /** The pages array after its opening bracket. */
  lemma ArrayRead(g: Gathered, b: seq<Byte>, depth: nat, max: nat)
    requires b != [] && b[0] == OPEN_BRACKET && depth <= MAX_DEPTH && |g.source.bytes| <= max
    ensures var r, c := TakeValue(b, depth), Skip(b[1..]);
            if c != [] && c[0] == CLOSE_BRACKET then
              r.Got? && r.rest == c[1..] && Ok(r.value, depth) && AddPages(g, ArrayPages(r.value, depth), max) == Some(g)
            else
              && (r.Got? <==> TakeItems(c, depth + 1).Got?)
              && (r.Got? ==>
                    && Ok(r.value, depth)
                    && PagesRead(g, c, depth + 1, max) ==
                       (match AddPages(g, ArrayPages(r.value, depth), max)
                        case None => None
                        case Some(h) => Some((h, r.rest))))
              && (r.Short? ==> PagesRead(g, c, depth + 1, max) == None)
  {
    hide TakeItems, SpaceRun, AllSpace, ItemPages, AddPages;
    SpaceRunIs(b[1..]);
    NoneAdded(g, max);
    ItemsFound(Skip(b[1..]), depth + 1);
  }

  /** The root object after its opening brace. */
  lemma RootObjectRead(g: Gathered, b: seq<Byte>, max: nat)
    requires b != [] && b[0] == OPEN_BRACE && |g.source.bytes| <= max
    ensures var r, c := TakeValue(b, 0), Skip(b[1..]);
            if c != [] && c[0] == CLOSE_BRACE then
              r.Got? && r.rest == c[1..] && Ok(r.value, 0) && AddPages(g, ManifestPages(r.value), max) == Some(g)
            else
              && (r.Got? <==> TakeMembers(c, 1).Got?)
              && (r.Got? ==>
                    && Ok(r.value, 0)
                    && RootRead(g, c, max) ==
                       (match AddPages(g, ManifestPages(r.value), max)
                        case None => None
                        case Some(h) => Some((h, r.rest))))
              && (r.Short? ==> RootRead(g, c, max) == None)
  {
    hide TakeMembers, SpaceRun, AllSpace, MemberPages, AddPages;
    SpaceRunIs(b[1..]);
    NoneAdded(g, max);
    MembersFound(Skip(b[1..]), 1);
  }

  lemma StringValue(b: seq<Byte>, depth: nat)
    ensures TakeValue(b, depth).Got? ==> Ok(TakeValue(b, depth).value, depth)
    ensures b != [] && b[0] == QUOTE ==> TakeValue(b, depth) == TakeStr(b)
    ensures TakeValue(b, depth).Got? && b[0] != QUOTE ==> !TakeValue(b, depth).value.Str?
  {
    hide TakeString, TakeNumber;
    if TakeValue(b, depth).Got? {
      ValueSound(b, depth);
    }
  }

  /** An entry that is no object contributes nothing. */
  lemma NoPage(g: Gathered, b: seq<Byte>, depth: nat, max: nat)
    requires |g.source.bytes| <= max && (b != [] ==> b[0] != OPEN_BRACE)
    ensures TakeValue(b, depth).Got? ==>
              Ok(TakeValue(b, depth).value, depth) && AddPages(g, ValuePages(TakeValue(b, depth).value, depth), max) == Some(g)
  {
    hide TakeString, TakeNumber;
    NoneAdded(g, max);
    if TakeValue(b, depth).Got? {
      ValueSound(b, depth);
    }
  }

  /** A root member that is no array contributes nothing, whatever its name. */
  lemma NoPages(g: Gathered, b: seq<Byte>, max: nat)
    requires |g.source.bytes| <= max
    ensures TakeValue(b, 1).Got? ==>
              && Ok(TakeValue(b, 1).value, 1)
              && (b[0] != OPEN_BRACKET ==> !TakeValue(b, 1).value.Arr?)
    ensures AddPages(g, [], max) == Some(g)
  {
    hide TakeString, TakeNumber;
    NoneAdded(g, max);
    if TakeValue(b, 1).Got? {
      ValueSound(b, 1);
    }
  }

  // ------------------------------------------------------------------------------
  // The walkers
  // ------------------------------------------------------------------------------

  class Extractor {
    const reader: Reader
    const max: nat
    var gathered: Gathered

    ghost predicate Valid()
      reads this, reader
    {
      reader.Valid() && |gathered.source.bytes| <= max
    }

    constructor (text: seq<Byte>, max: nat)
      ensures Valid() && fresh(reader) && this.max == max && reader.text == text && reader.Unread() == text
      ensures gathered == NOTHING
    {
      reader := new Reader(text);
      this.max := max;
      gathered := NOTHING;
    }

    /** Add a page's text to the source, as far as the budget goes. */
    method AppendPage(content: seq<Byte>)
      requires Valid() && PageOk(content)
      modifies this`gathered
      ensures Valid() && gathered == Gathered(Append(old(gathered.source), content, max), old(gathered.found))
    {
      hide Utf8.RawLength;
      var s := gathered.source;
      if s.truncated {
        return;
      }
      AppendFits(s, content, max);
      Utf8.LeadLengthIsRawLength(content);
      var glue: seq<Byte> := [];
      if s.bytes != [] {
        var first := Utf8.LeadLength(content);
        if max - |s.bytes| < |SEPARATOR| + first {
          NothingFits(content, max - |s.bytes| - |SEPARATOR|);
          gathered := gathered.(source := s.(truncated := true));
          return;
        }
        glue := SEPARATOR;
      }
      SomethingFits(content, max - |s.bytes| - |glue|);
      var out, cut := CopyChars(s.bytes + glue, content);
      gathered := gathered.(source := Source(out, cut));
    }

    /** Copy whole characters until the text or the budget runs out. */
    method CopyChars(start: seq<Byte>, content: seq<Byte>) returns (out: seq<Byte>, cut: bool)
      requires |start| <= max && Utf8.WellFormed(content)
      ensures var n := FitChars(content, max - |start|);
              out == start + content[..n] && cut == (n < |content|)
    {
      hide Utf8.RawLength, Utf8.WellFormed, Utf8.LeadLength, FitChars;
      out := start;
      var offset := 0;
      ghost var fit := FitChars(content, max - |start|);
      assert content[0..] == content && content[..0] == [];
      while offset < |content|
        invariant 0 <= offset <= |content| && |out| <= max
        invariant out == start + content[..offset]
        invariant Utf8.WellFormed(content[offset..])
        invariant fit == offset + FitChars(content[offset..], max - |out|)
      {
        CopyStep(content, offset, max - |out|);
        var length := Utf8.LeadLength(content[offset..]);
        if length == 0 || max - |out| < length {
          return out, true;
        }
        out := out + content[offset..offset + length];
        offset := offset + length;
      }
      NoneLeft(content, offset, max - |out|);
      cut := false;
    }

    /** Parse a page object and act on what it says. */
    method ParsePage(depth: nat) returns (ok: bool)
      requires Valid() && depth <= MAX_DEPTH
      requires reader.cur < |reader.text| && reader.text[reader.cur] == OPEN_BRACE
      modifies this`gathered, reader`cur
      ensures Valid()
      ensures var r := TakeValue(old(reader.Unread()), depth);
              if r.Got? && Ok(r.value, depth) then
                var g := AddPages(old(gathered), ValuePages(r.value, depth), max);
                ok == g.Some? && (ok ==> gathered == g.value && reader.Unread() == r.rest)
              else !ok
    {
      hide TakeMembers, TakeValue, ValuePages, SpaceRun, Skip, AddPages, AddPage, Noted, Ok, PageRead, Utf8.WellFormed;
      ghost var b := reader.Unread();
      ghost var g := gathered;
      reader.cur := reader.cur + 1;
      assert reader.Unread() == b[1..];
      reader.SkipSpace();
      ghost var c := reader.Unread();
      ObjectRead(b, depth);
      var page := NEW_PAGE;
      if reader.cur < |reader.text| && reader.text[reader.cur] == CLOSE_BRACE {
        reader.cur := reader.cur + 1;
        assert reader.Unread() == c[1..];
      } else {
        ok, page := ParsePageMembers(depth + 1);
        if !ok {
          return false;
        }
      }
      EmptyPageIsText();
      ok := FinishPage(page);
    }

    /** What happens at the end of a page object. */
    method FinishPage(page: Page) returns (ok: bool)
      requires Valid() && PageText(page)
      modifies this`gathered
      ensures Valid()
      ensures var g := AddPages(old(gathered), [page], max);
              ok == g.Some? && (ok ==> gathered == g.value)
    {
      hide AddPages, Append;
      OnePage(gathered, page, max);
      if page.state.Some? && page.content.Some? && Is(page.state.value, SUCCEEDED) {
        if page.content.value.containsNul {
          return false;
        }
        if HasNonspace(page.content.value.bytes) {
          gathered := gathered.(found := true);
          AppendPage(page.content.value.bytes);
        }
      }
      ok := true;
    }

    method ParsePageMembers(depth: nat) returns (ok: bool, page: Page)
      requires Valid()
      modifies reader`cur
      ensures Valid()
      ensures PageRead(NEW_PAGE, old(reader.Unread()), depth) == if ok then Some((page, reader.Unread())) else None
      ensures PageText(page)
    {
      hide TakeMembers, TakeValue, TakeKey, SpaceRun, Skip, PageRead, PageText, DecodeUnits;
      ghost var start, c := reader.cur, reader.Unread();
      page := NEW_PAGE;
      EmptyPageIsText();
      while true
        invariant Valid() && start <= reader.cur && PageText(page)
        invariant PageRead(NEW_PAGE, c, depth) == PageRead(page, reader.Unread(), depth)
        decreases |reader.text| - reader.cur
      {
        PageStep(page, reader.Unread(), depth);
        var key := reader.ParseKey();
        if key.None? {
          return false, page;
        }
        ok, page := ParseMember(page, key.value, depth);
        if !ok {
          return false, page;
        }
        var next := reader.ParseNext(CLOSE_BRACE);
        if next != More {
          return next == Closed, page;
        }
      }
    }

    /** The value of one member: a string for one of the two names of interest is kept, and
        everything else is parsed and dropped. */
    method ParseMember(page: Page, key: Text, depth: nat) returns (ok: bool, noted: Page)
      requires Valid() && Skip(reader.Unread()) == reader.Unread() && PageText(page)
      modifies reader`cur
      ensures Valid() && PageText(noted)
      ensures var r := TakeValue(old(reader.Unread()), depth);
              if r.Got? && Ok(r.value, depth) then ok && noted == Noted(page, key, r.value, depth) && reader.Unread() == r.rest
              else !ok
    {
      hide SpaceRun, Skip, TakeString, TakeNumber, DecodeUnits, UnitsOk, Utf8.WellFormed;
      ghost var b := reader.Unread();
      StringValue(b, depth);
      noted := page;
      if Is(key, STATE) && reader.cur < |reader.text| && reader.text[reader.cur] == QUOTE {
        var state := reader.ParseString();
        if state.None? {
          return false, page;
        }
        noted := page.(state := state);
        ok := true;
      } else if Is(key, CONTENT) && reader.cur < |reader.text| && reader.text[reader.cur] == QUOTE {
        var content := reader.ParseString();
        if content.None? {
          return false, page;
        }
        DecodedIsText(TakeString(b).value);
        noted := page.(content := content);
        ok := true;
      } else {
        ok := reader.ParseValue(depth);
      }
    }

    /** Parse the array of pages. */
    method ParsePages(depth: nat) returns (ok: bool)
      requires Valid() && depth < MAX_DEPTH
      requires reader.cur < |reader.text| && reader.text[reader.cur] == OPEN_BRACKET
      modifies this`gathered, reader`cur
      ensures Valid()
      ensures var r := TakeValue(old(reader.Unread()), depth);
              if r.Got? && Ok(r.value, depth) then
                var g := AddPages(old(gathered), ArrayPages(r.value, depth), max);
                ok == g.Some? && (ok ==> gathered == g.value && reader.Unread() == r.rest)
              else !ok
    {
      hide TakeItems, TakeValue, SpaceRun, Skip, AddPages, ArrayPages, Ok, PagesRead;
      ghost var b := reader.Unread();
      ArrayRead(gathered, b, depth, max);
      reader.cur := reader.cur + 1;
      assert reader.Unread() == b[1..];
      reader.SkipSpace();
      SkipTwice(b[1..]);
      ghost var c := reader.Unread();
      if reader.cur < |reader.text| && reader.text[reader.cur] == CLOSE_BRACKET {
        reader.cur := reader.cur + 1;
        assert reader.Unread() == c[1..];
        return true;
      }
      ok := ParsePageItems(depth + 1);
    }

    method ParsePageItems(depth: nat) returns (ok: bool)
      requires Valid() && depth <= MAX_DEPTH && Skip(reader.Unread()) == reader.Unread()
      modifies this`gathered, reader`cur
      ensures Valid()
      ensures PagesRead(old(gathered), old(reader.Unread()), depth, max) ==
              if ok then Some((gathered, reader.Unread())) else None
    {
      hide TakeItems, TakeValue, SpaceRun, Skip, PagesRead, ObjectPage, AddPages, Ok;
      ghost var start, c := reader.cur, reader.Unread();
      while true
        invariant Valid() && start <= reader.cur && Skip(reader.Unread()) == reader.Unread()
        invariant PagesRead(old(gathered), c, depth, max) == PagesRead(gathered, reader.Unread(), depth, max)
        decreases |reader.text| - reader.cur
      {
        PagesStep(gathered, reader.Unread(), depth, max);
        ok := ParsePageItem(depth);
        if !ok {
          return false;
        }
        var next := reader.ParseNext(CLOSE_BRACKET);
        if next != More {
          return next == Closed;
        }
      }
    }

    /** One entry of the pages array, a page or something to be ignored. */
    method ParsePageItem(depth: nat) returns (ok: bool)
      requires Valid() && depth <= MAX_DEPTH && Skip(reader.Unread()) == reader.Unread()
      modifies this`gathered, reader`cur
      ensures Valid()
      ensures var r := TakeValue(old(reader.Unread()), depth);
              if r.Got? && Ok(r.value, depth) then
                var g := AddPages(old(gathered), ValuePages(r.value, depth), max);
                ok == g.Some? && (ok ==> gathered == g.value && reader.Unread() == r.rest)
              else !ok
    {
      hide TakeArray, TakeObject, SpaceRun, Skip, ObjectPage, AddPages, Ok, TakeScalar;
      ghost var b := reader.Unread();
      if reader.cur < |reader.text| && reader.text[reader.cur] == OPEN_BRACE {
        ok := ParsePage(depth);
      } else {
        NoPage(gathered, b, depth, max);
        ok := reader.ParseValue(depth);
      }
    }

    method ParseRootObject() returns (ok: bool)
      requires Valid() && reader.cur < |reader.text| && reader.text[reader.cur] == OPEN_BRACE
      modifies this`gathered, reader`cur
      ensures Valid()
      ensures var r := TakeValue(old(reader.Unread()), 0);
              if r.Got? && Ok(r.value, 0) then
                var g := AddPages(old(gathered), ManifestPages(r.value), max);
                ok == g.Some? && (ok ==> gathered == g.value && reader.Unread() == r.rest)
              else !ok
    {
      hide TakeMembers, TakeValue, SpaceRun, Skip, AddPages, ManifestPages, Ok, RootRead;
      ghost var b := reader.Unread();
      RootObjectRead(gathered, b, max);
      reader.cur := reader.cur + 1;
      assert reader.Unread() == b[1..];
      reader.SkipSpace();
      ghost var c := reader.Unread();
      if reader.cur < |reader.text| && reader.text[reader.cur] == CLOSE_BRACE {
        reader.cur := reader.cur + 1;
        assert reader.Unread() == c[1..];
        return true;
      }
      ok := ParseRootMembers();
    }

    method ParseRootMembers() returns (ok: bool)
      requires Valid()
      modifies this`gathered, reader`cur
      ensures Valid()
      ensures RootRead(old(gathered), old(reader.Unread()), max) == if ok then Some((gathered, reader.Unread())) else None
    {
      hide TakeMembers, TakeValue, TakeKey, SpaceRun, Skip, RootRead, ArrayPages, AddPages, DecodeUnits, Ok, Is;
      ghost var start, c := reader.cur, reader.Unread();
      while true
        invariant Valid() && start <= reader.cur
        invariant RootRead(old(gathered), c, max) == RootRead(gathered, reader.Unread(), max)
        decreases |reader.text| - reader.cur
      {
        RootStep(gathered, reader.Unread(), max);
        var key := reader.ParseKey();
        if key.None? {
          return false;
        }
        ok := ParseRootMember(key.value);
        if !ok {
          return false;
        }
        var next := reader.ParseNext(CLOSE_BRACE);
        if next != More {
          return next == Closed;
        }
      }
    }

    method ParseRootMember(key: Text) returns (ok: bool)
      requires Valid() && Skip(reader.Unread()) == reader.Unread()
      modifies this`gathered, reader`cur
      ensures Valid()
      ensures var r := TakeValue(old(reader.Unread()), 1);
              if r.Got? && Ok(r.value, 1) then
                var g := AddPages(old(gathered), RootPages(key, r.value), max);
                ok == g.Some? && (ok ==> gathered == g.value && reader.Unread() == r.rest)
              else !ok
    {
      hide TakeArray, TakeObject, SpaceRun, Skip, AddPages, Ok, TakeScalar;
      ghost var b := reader.Unread();
      if Is(key, PAGES) && reader.cur < |reader.text| && reader.text[reader.cur] == OPEN_BRACKET {
        ok := ParsePages(1);
      } else {
        NoPages(gathered, b, max);
        ok := reader.ParseValue(1);
      }
    }
  }

  // ------------------------------------------------------------------------------
  // Extraction
  // ------------------------------------------------------------------------------

  ghost function Told(g: Option<Gathered>): Outcome {
    if g.None? then Invalid else if !g.value.found then Empty else Extracted(g.value.source)
  }

  /** The meaning of a text in terms of its pages added one by one. */
  lemma MeaningAddsUp(text: seq<Byte>, max: nat)
    ensures var r := TakeValue(Skip(text), 0);
            && (r.Short? || Skip(r.rest) != [] ==> Meaning(text, max) == Invalid)
            && (r.Got? ==> Ok(r.value, 0))
            && (r.Got? && Skip(r.rest) == [] ==> Meaning(text, max) == Told(AddPages(NOTHING, ManifestPages(r.value), max)))
  {
    hide TakeValue, SpaceRun, Skip, AddPages, ManifestPages, Ok, Joined, Texts, AnyRejected;
    var r := TakeValue(Skip(text), 0);
    if r.Got? {
      ValueSound(Skip(text), 0);
      AddsUp(ManifestPages(r.value), max);
    }
  }

  /** What the top-level value leaves behind is enough to tell the meaning of the text. */
  ghost predicate Walked(b: seq<Byte>, max: nat, ok: bool, g: Gathered, rest: seq<Byte>) {
    var r := TakeValue(b, 0);
    if r.Got? && Ok(r.value, 0) then
      var h := AddPages(NOTHING, ManifestPages(r.value), max);
      ok == h.Some? && (ok ==> g == h.value && rest == r.rest)
    else !ok
  }

  lemma WalkTells(text: seq<Byte>, max: nat, ok: bool, g: Gathered, rest: seq<Byte>)
    requires Walked(Skip(text), max, ok, g, rest)
    ensures Meaning(text, max) ==
            if !ok || Skip(rest) != [] then Invalid else if !g.found then Empty else Extracted(g.source)
  {
    hide TakeValue, SpaceRun, AddPages, ManifestPages, Ok, Meaning, Skip;
    MeaningAddsUp(text, max);
  }

  /** The whole call. */
  method Extract(text: seq<Byte>, max: nat) returns (r: Outcome)
    ensures r == Meaning(text, max)
  {
    hide SpaceRun, Skip, Walked, Meaning;
    SkipTwice(text);
    var e := new Extractor(text, max);
    e.reader.SkipSpace();
    var ok := ParseTop(e);
    ghost var rest := e.reader.Unread();
    WalkTells(text, max, ok, e.gathered, rest);
    if !ok {
      return Invalid;
    }
    e.reader.SkipSpace();
    AtEnd(text, e.reader.cur);
    if e.reader.cur != |text| {
      return Invalid;
    }
    if !e.gathered.found {
      return Empty;
    }
    r := Extracted(e.gathered.source);
  }

  lemma AtEnd(text: seq<Byte>, cur: nat)
    requires cur <= |text|
    ensures cur == |text| <==> text[cur..] == []
  {
  }

  /** The value at the top, which only an object is walked for pages. */
  method ParseTop(e: Extractor) returns (ok: bool)
    requires e.Valid() && Skip(e.reader.Unread()) == e.reader.Unread() && e.gathered == NOTHING
    modifies e`gathered, e.reader`cur
    ensures e.Valid() && Walked(old(e.reader.Unread()), e.max, ok, e.gathered, e.reader.Unread())
  {
    hide TakeValue, SpaceRun, AddPages, ManifestPages, Ok, Skip;
    NoneAdded(NOTHING, e.max);
    NotRoot(e.reader.Unread());
    if e.reader.cur < |e.reader.text| && e.reader.text[e.reader.cur] == OPEN_BRACE {
      ok := e.ParseRootObject();
    } else {
      ok := e.reader.ParseValue(0);
    }
  }

  /** Only an object at the top can have pages. */
  lemma NotRoot(b: seq<Byte>)
    ensures TakeValue(b, 0).Got? ==>
              Ok(TakeValue(b, 0).value, 0) && (b[0] != OPEN_BRACE ==> ManifestPages(TakeValue(b, 0).value) == [])
  {
    hide TakeString, TakeNumber;
    if TakeValue(b, 0).Got? {
      ValueSound(b, 0);
    }
  }

  // ------------------------------------------------------------------------------
  // What the caller gets
  // ------------------------------------------------------------------------------

  ghost predicate AllText(pages: seq<Page>) {
    forall p | p in pages :: PageText(p)
  }

  lemma {:induction false} ItemsAreText(items: Items, depth: nat)
    requires ItemsOk(items, depth)
    ensures AllText(ItemPages(items, depth))
    decreases items
  {
    hide PageText, Ok;
    ObjectIsText(items.value, depth);
    if items.Item? {
      ItemsAreText(items.more, depth);
    }
  }

  lemma ObjectIsText(v: Value, depth: nat)
    requires Ok(v, depth)
    ensures PageText(ObjectPage(v, depth))
  {
    hide PageText, MembersOk;
    EmptyPageIsText();
    if v.Obj? {
      PageOfIsText(NEW_PAGE, v.members, depth + 1);
    }
  }

  lemma {:induction false} MembersAreText(members: Members, depth: nat)
    requires MembersOk(members, depth)
    ensures AllText(MemberPages(members, depth))
    decreases members
  {
    hide PageText;
    if Is(DecodeUnits(members.key), PAGES) && members.value.Arr? {
      ItemsAreText(members.value.items, depth + 1);
    }
    if members.Member? {
      MembersAreText(members.more, depth);
    }
  }

  lemma {:induction false} TextsAreOk(pages: seq<Page>)
    requires AllText(pages)
    ensures PagesOk(Texts(pages))
  {
    hide Utf8.WellFormed;
    if pages != [] {
      assert AllText(pages[1..]) && PageText(pages[0]);
      TextsAreOk(pages[1..]);
    }
  }

  /** The call fails exactly on texts that are not JSON and on manifests with a NUL in the
      content of a succeeded page.  Otherwise it gives the non-blank content of the succeeded
      pages in order, joined by separators: within the budget, well-formed, a prefix of the
      whole, cut only behind a character of page text, and marked as truncated exactly when
      the whole exceeds the budget. */
  lemma ExtractionIsExact(text: seq<Byte>, max: nat, before: seq<Byte>, v: Value, after: seq<Byte>)
    requires Spells(text, before, v, after)
    ensures Meaning(text, max).Invalid? <==> AnyRejected(ManifestPages(v))
    ensures Meaning(text, max).Empty? <==> !AnyRejected(ManifestPages(v)) && Texts(ManifestPages(v)) == []
    ensures Meaning(text, max).Extracted? ==>
              var source, pages := Meaning(text, max).source, Texts(ManifestPages(v));
              && |source.bytes| <= max && Utf8.WellFormed(source.bytes)
              && source.bytes <= Full(pages) && IsCut(source.bytes, pages)
              && (source.truncated <==> max < |Full(pages)|)
              && (!source.truncated ==> source.bytes == Full(pages))
  {
    hide TakeValue, Render, SpaceRun, Skip, AllSpace, Texts, Utf8.WellFormed, IsCut, Full, MemberPages, Joined;
    OneReading(text, before, v, after);
    AcceptsExactlyJson(text);
    assert IsJson(text);
    if v.Obj? {
      MembersAreText(v.members, 1);
    }
    TextsAreOk(ManifestPages(v));
    BudgetIsExact(Texts(ManifestPages(v)), max);
  }

  lemma NotJsonIsInvalid(text: seq<Byte>, max: nat)
    requires !IsJson(text)
    ensures Meaning(text, max) == Invalid
  {
    AcceptsExactlyJson(text);
  }
}
