/** The streaming filter that shows the thinking part of a reply in grey and drops its tags
    (token_printer_process and its helpers in ds4_cli.c). */
module ThinkFilter {

  type Text = seq<char>

  const OPEN: Text := "<think>"
  const CLOSE: Text := "</think>"
  const PENDING_SIZE := 16

  /** What reaches the terminal: a character of the text, the start and end of grey, and a line
      break that was not in the text. */
  datatype Event = Char(c: char) | Grey | Reset | LineBreak

  datatype Mode = Mode(useColor: bool, inThink: bool, colorOpen: bool, lastNewline: bool)

  // ------------------------------------------------------------------------------
  // The filter as a function of the whole text
  // ------------------------------------------------------------------------------

  predicate IsPartial(text: Text, tag: Text) {
    |text| < |tag| && text <= tag
  }

  /** Text that may turn out to be a tag once more of it is known. */
  predicate Undecided(text: Text) {
    text != "" && text[0] == '<' && (IsPartial(text, OPEN) || IsPartial(text, CLOSE))
  }

  function ResetEvents(m: Mode): seq<Event> {
    if m.useColor && m.colorOpen then [Reset] else []
  }

  function CharEvents(m: Mode, c: char): seq<Event> {
    (if m.inThink && m.useColor && !m.colorOpen then [Grey] else []) + [Char(c)]
  }

  function AfterChar(m: Mode, c: char): Mode {
    m.(colorOpen := m.colorOpen || (m.inThink && m.useColor), lastNewline := c == '\n')
  }

  function CloseEvents(m: Mode): seq<Event> {
    ResetEvents(m) + if m.lastNewline then [] else [LineBreak]
  }

  function AfterClose(m: Mode): Mode {
    m.(inThink := false, colorOpen := m.colorOpen && !m.useColor, lastNewline := true)
  }

  /** Where a pass over a text ends: the mode, what was shown, and what is held back. */
  datatype Pass = Pass(mode: Mode, shown: seq<Event>, held: Text)

  function After(shown: seq<Event>, p: Pass): Pass {
    p.(shown := shown + p.shown)
  }

  function Filter(m: Mode, text: Text, finish: bool): Pass
    decreases |text|
  {
    if text == "" then Pass(m, [], "")
    else if OPEN <= text then Filter(m.(inThink := true), text[|OPEN|..], finish)
    else if CLOSE <= text then After(CloseEvents(m), Filter(AfterClose(m), text[|CLOSE|..], finish))
    else if !finish && Undecided(text) then Pass(m, [], text)
    else After(CharEvents(m, text[0]), Filter(AfterChar(m, text[0]), text[1..], finish))
  }

  // ------------------------------------------------------------------------------
  // Cutting the text makes no difference
  // ------------------------------------------------------------------------------

  lemma {:induction false} HeldIsShort(m: Mode, text: Text, finish: bool)
    ensures |Filter(m, text, finish).held| < |CLOSE|
    ensures finish ==> Filter(m, text, finish).held == ""
    decreases |text|
  {
    if text == "" {
    } else if OPEN <= text {
      HeldIsShort(m.(inThink := true), text[|OPEN|..], finish);
    } else if CLOSE <= text {
      HeldIsShort(AfterClose(m), text[|CLOSE|..], finish);
    } else if !finish && Undecided(text) {
    } else {
      HeldIsShort(AfterChar(m, text[0]), text[1..], finish);
    }
  }

  /** A character that is decided to be text stays so whatever follows. */
  lemma DecidedStays(a: Text, b: Text, tag: Text)
    requires a != "" && !(tag <= a) && !IsPartial(a, tag)
    ensures !(tag <= a + b) && !IsPartial(a + b, tag)
  {
    var n := if |a| < |tag| then |a| else |tag|;
    assert a[..n] != tag[..n] by {
      assert a[..|a|] == a && tag[..|tag|] == tag;
    }
    var k :| 0 <= k < n && a[k] != tag[k];
    assert (a + b)[k] == a[k];
  }

  lemma AfterTwice(x: seq<Event>, y: seq<Event>, p: Pass)
    ensures After(x, After(y, p)) == After(x + y, p)
  {
    assert x + (y + p.shown) == x + y + p.shown;
  }

  /** Passing over `a` and then over what was held back together with `b` is the same as
      passing over both at once. */
  lemma {:induction false} CutAnywhere(m: Mode, a: Text, b: Text, finish: bool)
    ensures var p := Filter(m, a, false);
            Filter(m, a + b, finish) == After(p.shown, Filter(p.mode, p.held + b, finish))
    decreases |a|
  {
    hide After, CharEvents, CloseEvents, AfterChar, AfterClose;
    if a == "" {
      assert a + b == b && "" + b == b;
      AfterNothing(Filter(m, b, finish));
    } else if OPEN <= a {
      assert (a + b)[|OPEN|..] == a[|OPEN|..] + b;
      CutAnywhere(m.(inThink := true), a[|OPEN|..], b, finish);
    } else if CLOSE <= a {
      assert (a + b)[|CLOSE|..] == a[|CLOSE|..] + b;
      assert !(OPEN <= a + b) by { assert a[1] == '/'; }
      CutAnywhere(AfterClose(m), a[|CLOSE|..], b, finish);
      CutStep(m, a, b, finish, CloseEvents(m), AfterClose(m), a[|CLOSE|..]);
    } else if Undecided(a) {
      AfterNothing(Filter(m, a + b, finish));
    } else {
      if a[0] == '<' {
        DecidedStays(a, b, OPEN);
        DecidedStays(a, b, CLOSE);
      }
      assert (a + b)[0] == a[0] && (a + b)[1..] == a[1..] + b;
      CutAnywhere(AfterChar(m, a[0]), a[1..], b, finish);
      CutStep(m, a, b, finish, CharEvents(m, a[0]), AfterChar(m, a[0]), a[1..]);
    }
  }

  lemma AfterNothing(p: Pass)
    ensures After([], p) == p
  {
    assert [] + p.shown == p.shown;
  }

  lemma CutStep(m: Mode, a: Text, b: Text, finish: bool, shown: seq<Event>, next: Mode, rest: Text)
    requires Filter(m, a, false) == After(shown, Filter(next, rest, false))
    requires Filter(m, a + b, finish) == After(shown, Filter(next, rest + b, finish))
    requires var q := Filter(next, rest, false);
             Filter(next, rest + b, finish) == After(q.shown, Filter(q.mode, q.held + b, finish))
    ensures var p := Filter(m, a, false);
            Filter(m, a + b, finish) == After(p.shown, Filter(p.mode, p.held + b, finish))
  {
    hide Filter;
    var q := Filter(next, rest, false);
    AfterTwice(shown, q.shown, Filter(q.mode, q.held + b, finish));
  }

  function Concat(pieces: seq<Text>): Text {
    if pieces == [] then "" else pieces[0] + Concat(pieces[1..])
  }

  /** Feeding the pieces one by one, each after what the piece before left undecided. */
  function Feed(p: Pass, pieces: seq<Text>): Pass
    decreases pieces
  {
    if pieces == [] then p else Feed(After(p.shown, Filter(p.mode, p.held + pieces[0], false)), pieces[1..])
  }

  function Start(m: Mode): Pass {
    Pass(m, [], "")
  }

  /** The end of the reply: nothing is held back any longer, and grey is switched off. */
  function Finish(p: Pass): Pass {
    var q := After(p.shown, Filter(p.mode, p.held, true));
    Pass(q.mode.(colorOpen := q.mode.colorOpen && !q.mode.useColor), q.shown + ResetEvents(q.mode), q.held)
  }

  lemma {:induction false} FeedIsOnePass(p: Pass, pieces: seq<Text>, finish: bool)
    ensures var q := Feed(p, pieces);
            After(q.shown, Filter(q.mode, q.held, finish)) == After(p.shown, Filter(p.mode, p.held + Concat(pieces), finish))
    decreases pieces
  {
    hide Filter, After;
    if pieces == [] {
      assert p.held + "" == p.held;
    } else {
      var r := Filter(p.mode, p.held + pieces[0], false);
      FeedIsOnePass(After(p.shown, r), pieces[1..], finish);
      CutAnywhere(p.mode, p.held + pieces[0], Concat(pieces[1..]), finish);
      assert p.held + pieces[0] + Concat(pieces[1..]) == p.held + (pieces[0] + Concat(pieces[1..]));
      Shift(p.shown, r, Filter(r.mode, r.held + Concat(pieces[1..]), finish));
    }
  }

  lemma Shift(shown: seq<Event>, r: Pass, end: Pass)
    ensures After(shown, r).mode == r.mode && After(shown, r).held == r.held
    ensures After(After(shown, r).shown, end) == After(shown, After(r.shown, end))
  {
    AfterTwice(shown, r.shown, end);
  }

  /** However a text is cut into tokens, the filter shows the same as on the whole text. */
  lemma ChunkingDoesNotShow(m: Mode, pieces: seq<Text>)
    ensures Finish(Feed(Start(m), pieces)) == Finish(Feed(Start(m), [Concat(pieces)]))
  {
    hide Filter, After;
    var whole := Concat(pieces);
    assert Concat([whole]) == whole by {
      assert [whole][1..] == [];
      assert whole + "" == whole;
    }
    FeedIsOnePass(Start(m), pieces, true);
    FeedIsOnePass(Start(m), [whole], true);
  }

  // ------------------------------------------------------------------------------
  // What the filter keeps and what it drops
  // ------------------------------------------------------------------------------

  function CharOf(e: Event): Text {
    if e.Char? then [e.c] else ""
  }

  function Chars(shown: seq<Event>): Text {
    if shown == [] then "" else CharOf(shown[0]) + Chars(shown[1..])
  }

  /** The text without its tags. */
  function Untagged(text: Text): Text
    decreases |text|
  {
    if text == "" then ""
    else if OPEN <= text then Untagged(text[|OPEN|..])
    else if CLOSE <= text then Untagged(text[|CLOSE|..])
    else [text[0]] + Untagged(text[1..])
  }

  lemma {:induction false} CharsOf(s: seq<Event>, t: seq<Event>)
    ensures Chars(s + t) == Chars(s) + Chars(t)
  {
    if s == [] {
      assert s + t == t;
    } else {
      hide CharOf;
      assert (s + t)[0] == s[0] && (s + t)[1..] == s[1..] + t;
      CharsOf(s[1..], t);
      assert CharOf(s[0]) + (Chars(s[1..]) + Chars(t)) == CharOf(s[0]) + Chars(s[1..]) + Chars(t);
    }
  }

  /** Every character outside a tag is shown, once and in order. */
  lemma {:induction false} ShowsTheText(m: Mode, text: Text)
    ensures Chars(Filter(m, text, true).shown) == Untagged(text)
    decreases |text|
  {
    if text == "" {
    } else if OPEN <= text {
      ShowsTheText(m.(inThink := true), text[|OPEN|..]);
    } else if CLOSE <= text {
      ShowsTheText(AfterClose(m), text[|CLOSE|..]);
      CharsOf(CloseEvents(m), Filter(AfterClose(m), text[|CLOSE|..], true).shown);
    } else {
      ShowsTheText(AfterChar(m, text[0]), text[1..]);
      CharsOf(CharEvents(m, text[0]), Filter(AfterChar(m, text[0]), text[1..], true).shown);
    }
  }

  // ------------------------------------------------------------------------------
  // The printer
  // ------------------------------------------------------------------------------

  class Printer {
    const useColor: bool
    const pending: array<char>
    var pendingLen: nat
    var inThink: bool
    var colorOpen: bool
    var lastNewline: bool
    var shown: seq<Event>

    ghost predicate Valid()
      reads this
    {
      pending.Length == PENDING_SIZE && pendingLen < |CLOSE|
    }

    function State(): Pass
      reads this, pending
      requires pendingLen <= pending.Length
    {
      Pass(Mode(useColor, inThink, colorOpen, lastNewline), shown, pending[..pendingLen])
    }

    constructor (useColor: bool, inThink: bool)
      ensures Valid() && fresh(pending) && State() == Start(Mode(useColor, inThink, false, true))
    {
      this.useColor := useColor;
      pending := new char[PENDING_SIZE](_ => ' ');
      pendingLen := 0;
      this.inThink := inThink;
      colorOpen := false;
      lastNewline := true;
      shown := [];
    }

    method SetGrey()
      modifies this`shown, this`colorOpen
      ensures shown == old(shown) + (if useColor && !old(colorOpen) then [Grey] else [])
      ensures colorOpen == (old(colorOpen) || useColor)
    {
      if useColor && !colorOpen {
        shown := shown + [Grey];
        colorOpen := true;
      }
    }

    method ResetColor()
      modifies this`shown, this`colorOpen
      ensures shown == old(shown) + (if useColor && old(colorOpen) then [Reset] else [])
      ensures colorOpen == (old(colorOpen) && !useColor)
    {
      if useColor && colorOpen {
        shown := shown + [Reset];
        colorOpen := false;
      }
    }

    method WriteChar(c: char)
      modifies this`shown, this`colorOpen, this`lastNewline
      ensures var m := old(Mode(useColor, inThink, colorOpen, lastNewline));
              shown == old(shown) + CharEvents(m, c) && Mode(useColor, inThink, colorOpen, lastNewline) == AfterChar(m, c)
    {
      if inThink {
        SetGrey();
      }
      shown := shown + [Char(c)];
      lastNewline := c == '\n';
    }

    /** The end of the thinking part, which always ends a line. */
    method CloseThink()
      modifies this`shown, this`colorOpen, this`lastNewline, this`inThink
      ensures var m := old(Mode(useColor, inThink, colorOpen, lastNewline));
              shown == old(shown) + CloseEvents(m) && Mode(useColor, inThink, colorOpen, lastNewline) == AfterClose(m)
    {
      inThink := false;
      ResetColor();
      if !lastNewline {
        shown := shown + [LineBreak];
        lastNewline := true;
      }
    }

    /** Take in a piece of text; `finish` says that there is no more. */
    method Process(text: Text, finish: bool)
      requires Valid()
      modifies this`pendingLen, this`inThink, this`colorOpen, this`lastNewline, this`shown, pending
      ensures Valid()
      ensures State() == After(old(shown), Filter(old(State()).mode, old(State()).held + text, finish))
    {
      hide Filter, After, CharEvents, AfterChar, CloseEvents, AfterClose, Undecided;
      var buf := pending[..pendingLen] + text;
      ghost var whole := Filter(old(State()).mode, buf, finish);
      pendingLen := 0;
      var i := 0;
      assert buf[0..] == buf;
      while i < |buf|
        invariant 0 <= i <= |buf| && Valid() && pendingLen == 0
        invariant After(old(shown), whole) ==
                  After(shown, Filter(Mode(useColor, inThink, colorOpen, lastNewline), buf[i..], finish))
      {
        ghost var m := Mode(useColor, inThink, colorOpen, lastNewline);
        var cur := buf[i..];
        FilterStep(shown, m, cur, finish);
        if OPEN <= cur {
          inThink := true;
          assert buf[i..][|OPEN|..] == buf[i + |OPEN|..];
          i := i + |OPEN|;
          continue;
        }
        if CLOSE <= cur {
          CloseThink();
          assert buf[i..][|CLOSE|..] == buf[i + |CLOSE|..];
          i := i + |CLOSE|;
          continue;
        }
        if !finish && Undecided(cur) {
          UndecidedIsShort(cur);
          if |cur| < pending.Length {
            Hold(cur);
          }
          return;
        }
        WriteChar(cur[0]);
        assert buf[i..][1..] == buf[i + 1..];
        i := i + 1;
      }
      FilterEnd(shown, Mode(useColor, inThink, colorOpen, lastNewline), buf[i..], finish);
    }

    method Hold(cur: Text)
      requires |cur| < |CLOSE| && pending.Length == PENDING_SIZE
      modifies pending, this`pendingLen
      ensures pendingLen == |cur| && pending[..pendingLen] == cur
    {
      for j := 0 to |cur|
        invariant pending[..j] == cur[..j]
      {
        pending[j] := cur[j];
        assert cur[..j + 1] == cur[..j] + [cur[j]];
      }
      assert cur[..|cur|] == cur;
      pendingLen := |cur|;
    }

    method FinishReply()
      requires Valid()
      modifies this`pendingLen, this`inThink, this`colorOpen, this`lastNewline, this`shown, pending
      ensures Valid() && State() == Finish(old(State()))
    {
      assert old(State()).held + "" == old(State()).held;
      Process("", true);
      ResetColor();
    }
  }

  lemma UndecidedIsShort(text: Text)
    requires Undecided(text)
    ensures |text| < |CLOSE|
  {
  }

  /** One turn of the loop. */
  lemma FilterStep(shown: seq<Event>, m: Mode, cur: Text, finish: bool)
    requires cur != ""
    ensures var p := After(shown, Filter(m, cur, finish));
            if OPEN <= cur then p == After(shown, Filter(m.(inThink := true), cur[|OPEN|..], finish))
            else if CLOSE <= cur then p == After(shown + CloseEvents(m), Filter(AfterClose(m), cur[|CLOSE|..], finish))
            else if !finish && Undecided(cur) then p == Pass(m, shown, cur)
            else p == After(shown + CharEvents(m, cur[0]), Filter(AfterChar(m, cur[0]), cur[1..], finish))
  {
    hide CharEvents, AfterChar, CloseEvents, AfterClose;
    if OPEN <= cur {
    } else if CLOSE <= cur {
      AfterTwice(shown, CloseEvents(m), Filter(AfterClose(m), cur[|CLOSE|..], finish));
    } else if !finish && Undecided(cur) {
      assert shown + [] == shown;
    } else {
      AfterTwice(shown, CharEvents(m, cur[0]), Filter(AfterChar(m, cur[0]), cur[1..], finish));
    }
  }

  lemma FilterEnd(shown: seq<Event>, m: Mode, cur: Text, finish: bool)
    requires cur == ""
    ensures After(shown, Filter(m, cur, finish)) == Pass(m, shown, "")
  {
    assert shown + [] == shown;
  }
}
