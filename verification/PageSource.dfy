/** Joining the text of crawled pages within a byte budget, without cutting a character or
    leaving a page separator behind (ds4_append_page in ds4_crawl_grounding.c). */
module PageSource {
  import opened Bytes
  import Utf8

  /** Two line feeds, "--- PAGE BREAK ---", two line feeds. */
  const SEPARATOR: seq<Byte> :=
    [0x0a, 0x0a, 0x2d, 0x2d, 0x2d, 0x20, 0x50, 0x41, 0x47, 0x45, 0x20, 0x42, 0x52, 0x45, 0x41, 0x4b, 0x20,
     0x2d, 0x2d, 0x2d, 0x0a, 0x0a]

  /** Page texts are well-formed and not empty. */
  ghost predicate PageOk(text: seq<Byte>) {
    text != [] && Utf8.WellFormed(text)
  }

  ghost predicate PagesOk(pages: seq<seq<Byte>>) {
    forall p | p in pages :: PageOk(p)
  }

  /** The whole text: the pages with a separator between each two. */
  function Full(pages: seq<seq<Byte>>): seq<Byte> {
    if pages == [] then []
    else if |pages| == 1 then pages[0]
    else Full(pages[..|pages| - 1]) + SEPARATOR + pages[|pages| - 1]
  }

  // ------------------------------------------------------------------------------
  // What the budget leaves of it
  // ------------------------------------------------------------------------------

  /** How much of a page fits into `room`, in whole characters. */
  function FitChars(text: seq<Byte>, room: nat): (n: nat)
    ensures n <= |text| && n <= room
    decreases |text|
  {
    if text == [] then 0
    else
      var c := Utf8.RawLength(text);
      if c == 0 || room < c then 0 else c + FitChars(text[c..], room - c)
  }

  datatype Source = Source(bytes: seq<Byte>, truncated: bool)

  const EMPTY := Source([], false)

  /** One more page after `s`: nothing once the budget has been met, otherwise a separator if at
      least one character fits behind it, and then as many whole characters as fit. */
  function Append(s: Source, text: seq<Byte>, max: nat): Source
    requires |s.bytes| <= max
  {
    if s.truncated then s
    else
      var glue := if s.bytes == [] then [] else SEPARATOR;
      var room: int := max - |s.bytes| - |glue|;
      var n := if room < 0 then 0 else FitChars(text, room);
      if s.bytes != [] && n == 0 then s.(truncated := true)
      else Source(s.bytes + glue + text[..n], n < |text|)
  }

  function Joined(pages: seq<seq<Byte>>, max: nat): (s: Source)
    ensures |s.bytes| <= max
  {
    if pages == [] then EMPTY
    else
      var before := Joined(pages[..|pages| - 1], max);
      AppendFits(before, pages[|pages| - 1], max);
      Append(before, pages[|pages| - 1], max)
  }

  lemma AppendFits(s: Source, text: seq<Byte>, max: nat)
    requires |s.bytes| <= max
    ensures |Append(s, text, max).bytes| <= max
  {
  }

  lemma {:induction false} FitCharsFits(text: seq<Byte>, room: nat)
    requires Utf8.WellFormed(text)
    ensures FitChars(text, room) == |text| <==> |text| <= room
    ensures Utf8.WellFormed(text[..FitChars(text, room)])
    decreases |text|
  {
    hide Utf8.RawLength;
    var n := FitChars(text, room);
    if text != [] {
      var c := Utf8.RawLength(text);
      if c <= room {
        FitCharsFits(text[c..], room - c);
        assert text[..n] == text[..c] + text[c..][..n - c];
        Utf8.OneCharacter(text);
        Utf8.WellFormedAppend(text[..c], text[c..][..n - c]);
      }
    }
  }

  lemma {:induction false} AsciiIsText(s: seq<Byte>)
    requires forall i | 0 <= i < |s| :: s[i] < 0x80
    ensures Utf8.WellFormed(s)
  {
    if s != [] {
      assert forall i | 0 <= i < |s[1..]| :: s[1..][i] == s[i + 1];
      AsciiIsText(s[1..]);
      assert Utf8.RawLength(s) == 1;
    }
  }

  lemma SeparatorIsText()
    ensures Utf8.WellFormed(SEPARATOR)
  {
    hide Utf8.WellFormed;
    AsciiIsText(SEPARATOR);
  }

  // ------------------------------------------------------------------------------
  // The properties of the result
  // ------------------------------------------------------------------------------

  /** The output is a whole number of pages, the last one possibly cut after some character:
      a separator only ever stands between two pieces of page text. */
  ghost predicate IsCut(bytes: seq<Byte>, pages: seq<seq<Byte>>) {
    bytes == [] ||
    exists k: nat, n: nat :: k < |pages| && 0 < n <= |pages[k]| && bytes == Full(pages[..k] + [pages[k][..n]])
  }

  lemma FullSnoc(pages: seq<seq<Byte>>, p: seq<Byte>)
    ensures Full(pages + [p]) == if pages == [] then p else Full(pages) + SEPARATOR + p
  {
    assert (pages + [p])[..|pages|] == pages;
  }

  lemma {:induction false} FullIsNotEmpty(pages: seq<seq<Byte>>)
    requires PagesOk(pages) && pages != []
    ensures Full(pages) != []
  {
    assert PageOk(pages[0]);
  }

  /** Within budget, well-formed, a prefix of the whole text, never a dangling separator, and
      marked as truncated exactly when the whole text is too long. */
  lemma {:induction false} BudgetIsExact(pages: seq<seq<Byte>>, max: nat)
    requires PagesOk(pages)
    ensures var s := Joined(pages, max);
            && |s.bytes| <= max
            && Utf8.WellFormed(s.bytes)
            && s.bytes <= Full(pages)
            && IsCut(s.bytes, pages)
            && (s.truncated <==> max < |Full(pages)|)
            && (!s.truncated ==> s.bytes == Full(pages))
    decreases |pages|
  {
    if pages != [] {
      hide Utf8.RawLength, Utf8.WellFormed, Append, IsCut, FitChars;
      var before, p := pages[..|pages| - 1], pages[|pages| - 1];
      assert pages == before + [p];
      assert PagesOk(before) && PageOk(p);
      BudgetIsExact(before, max);
      FullSnoc(before, p);
      AppendKeeps(before, p, Joined(before, max), max);
    }
  }

  lemma AppendKeeps(pages: seq<seq<Byte>>, p: seq<Byte>, s: Source, max: nat)
    requires PagesOk(pages) && PageOk(p) && |s.bytes| <= max
    requires Utf8.WellFormed(s.bytes) && s.bytes <= Full(pages) && IsCut(s.bytes, pages)
    requires s.truncated <==> max < |Full(pages)|
    requires !s.truncated ==> s.bytes == Full(pages)
    ensures var t := Append(s, p, max);
            && Utf8.WellFormed(t.bytes)
            && t.bytes <= Full(pages + [p])
            && IsCut(t.bytes, pages + [p])
            && (t.truncated <==> max < |Full(pages + [p])|)
            && (!t.truncated ==> t.bytes == Full(pages + [p]))
  {
    hide Utf8.RawLength, Utf8.WellFormed, IsCut, FitChars, Full;
    FullSnoc(pages, p);
    CutGrows(s.bytes, pages, p);
    if pages != [] { FullIsNotEmpty(pages); } else { FullOfNone(); }
    assert Full(pages) <= Full(pages + [p]);
    if !s.truncated {
      var glue := if s.bytes == [] then [] else SEPARATOR;
      assert Full(pages + [p]) == s.bytes + glue + p;
      var room: int := max - |s.bytes| - |glue|;
      if 0 <= room {
        FitCharsFits(p, room);
        var n := FitChars(p, room);
        assert p == p[..n] + p[n..];
        assert s.bytes + glue + p == s.bytes + glue + p[..n] + p[n..];
        assert n == |p| ==> p[..n] == p;
        assert s.bytes + glue + p[..n] <= Full(pages + [p]);
        SeparatorIsText();
        EmptyIsText();
        Utf8.WellFormedAppend(s.bytes, glue);
        Utf8.WellFormedAppend(s.bytes + glue, p[..n]);
        if 0 < n {
          CutHere(s.bytes + glue + p[..n], pages, p, n);
        } else {
          NothingIsCut(pages + [p]);
        }
      }
    }
  }

  lemma NothingIsCut(pages: seq<seq<Byte>>)
    ensures IsCut([], pages)
  {
  }

  lemma FullOfNone()
    ensures Full([]) == []
  {
  }

  lemma EmptyIsText()
    ensures Utf8.WellFormed([])
  {
  }

  lemma CutGrows(bytes: seq<Byte>, pages: seq<seq<Byte>>, p: seq<Byte>)
    requires IsCut(bytes, pages)
    ensures IsCut(bytes, pages + [p])
  {
    hide Full;
    if bytes != [] {
      var k: nat, n: nat :| k < |pages| && 0 < n <= |pages[k]| && bytes == Full(pages[..k] + [pages[k][..n]]);
      assert (pages + [p])[..k] == pages[..k] && (pages + [p])[k] == pages[k];
      assert bytes == Full((pages + [p])[..k] + [(pages + [p])[k][..n]]);
    }
  }

  lemma CutHere(bytes: seq<Byte>, pages: seq<seq<Byte>>, p: seq<Byte>, n: nat)
    requires 0 < n <= |p|
    requires bytes == (if pages == [] then [] else Full(pages) + SEPARATOR) + p[..n]
    ensures IsCut(bytes, pages + [p])
  {
    hide Full;
    FullSnoc(pages, p[..n]);
    var k := |pages|;
    assert (pages + [p])[..k] == pages && (pages + [p])[k] == p;
    assert bytes == Full((pages + [p])[..k] + [(pages + [p])[k][..n]]);
  }

  lemma {:induction false} FitCharsIsMost(text: seq<Byte>, room: nat, n: nat)
    requires n <= |text| && n <= room && Utf8.WellFormed(text[..n])
    ensures n <= FitChars(text, room)
    decreases |text|
  {
    hide Utf8.RawLength;
    if n != 0 {
      var c := Utf8.RawLength(text[..n]);
      Utf8.SameFront(text[..n], text[n..]);
      assert text[..n] + text[n..] == text;
      assert text[..n][c..] == text[c..][..n - c];
      FitCharsIsMost(text[c..], room - c, n - c);
    }
  }

  /** No other cut after a whole character that meets the budget is longer. */
  lemma {:induction false} NothingLongerFits(pages: seq<seq<Byte>>, max: nat, k: nat, n: nat)
    requires PagesOk(pages) && k < |pages| && 0 < n <= |pages[k]| && Utf8.WellFormed(pages[k][..n])
    requires |Full(pages[..k] + [pages[k][..n]])| <= max
    ensures |Full(pages[..k] + [pages[k][..n]])| <= |Joined(pages, max).bytes|
    decreases |pages|
  {
    hide Utf8.RawLength, Utf8.WellFormed, FitChars, Full;
    var before, p := pages[..|pages| - 1], pages[|pages| - 1];
    assert PagesOk(before);
    if k < |before| {
      assert pages[..k] == before[..k];
      NothingLongerFits(before, max, k, n);
    } else {
      assert pages[..k] == before;
      FullSnoc(before, p[..n]);
      BudgetIsExact(before, max);
      if before != [] { FullIsNotEmpty(before); } else { FullOfNone(); }
      var s := Joined(before, max);
      assert s.bytes == Full(before) && !s.truncated;
      FitCharsIsMost(p, max - |s.bytes| - (if s.bytes == [] then 0 else |SEPARATOR|), n);
    }
  }
}
