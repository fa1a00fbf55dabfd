/** What a reader of the terminal sees of a streamed reply: which characters are grey, and where
    a line was broken (token_printer_process in ds4_cli.c). Colours are read off what was shown,
    and thinking off the text. */
module ThinkShown {
  import opened ThinkFilter

  // ------------------------------------------------------------------------------
  // Colours
  // ------------------------------------------------------------------------------

  /** The colour behind an event: the terminal keeps it until it is changed. */
  function Behind(e: Event, grey: bool): bool {
    match e
    case Grey => true
    case Reset => false
    case Char(_) => grey
    case LineBreak => grey
  }

  function ColourOf(e: Event, grey: bool): seq<bool> {
    if e.Char? then [grey] else []
  }

  /** For each character shown, whether it is grey. */
  function Colours(shown: seq<Event>, grey: bool): seq<bool> {
    if shown == [] then [] else ColourOf(shown[0], grey) + Colours(shown[1..], Behind(shown[0], grey))
  }

  function LastColour(shown: seq<Event>, grey: bool): bool {
    if shown == [] then grey else LastColour(shown[1..], Behind(shown[0], grey))
  }

  /** No change to a colour that is already there. */
  predicate Tidy(shown: seq<Event>, grey: bool) {
    shown == [] ||
    ((shown[0] == Grey ==> !grey) && (shown[0] == Reset ==> grey) && Tidy(shown[1..], Behind(shown[0], grey)))
  }

  /** For each character of the text outside a tag, whether the last tag before it opens. */
  function Thinking(text: Text, thinking: bool): seq<bool>
    decreases |text|
  {
    if text == "" then []
    else if OPEN <= text then Thinking(text[|OPEN|..], true)
    else if CLOSE <= text then Thinking(text[|CLOSE|..], false)
    else [thinking] + Thinking(text[1..], thinking)
  }

  lemma {:induction false} ColoursOf(s: seq<Event>, t: seq<Event>, grey: bool)
    ensures Colours(s + t, grey) == Colours(s, grey) + Colours(t, LastColour(s, grey))
    ensures LastColour(s + t, grey) == LastColour(t, LastColour(s, grey))
    decreases s
  {
    hide ColourOf;
    if s == [] {
      assert s + t == t;
    } else {
      assert (s + t)[0] == s[0] && (s + t)[1..] == s[1..] + t;
      ColoursOf(s[1..], t, Behind(s[0], grey));
    }
  }

  lemma {:induction false} TidyOf(s: seq<Event>, t: seq<Event>, grey: bool)
    ensures Tidy(s + t, grey) <==> Tidy(s, grey) && Tidy(t, LastColour(s, grey))
    decreases s
  {
    if s == [] {
      assert s + t == t;
    } else {
      assert (s + t)[0] == s[0] && (s + t)[1..] == s[1..] + t;
      TidyOf(s[1..], t, Behind(s[0], grey));
    }
  }

  /** What one step of the filter shows, at its head. */
  lemma ColoursAfter(s: seq<Event>, p: Pass, grey: bool, next: bool, here: seq<bool>)
    requires Colours(s, grey) == here && LastColour(s, grey) == next && Tidy(s, grey)
    requires Tidy(p.shown, next)
    ensures Colours(After(s, p).shown, grey) == here + Colours(p.shown, next)
    ensures LastColour(After(s, p).shown, grey) == LastColour(p.shown, next)
    ensures Tidy(After(s, p).shown, grey)
  {
    ColoursOf(s, p.shown, grey);
    TidyOf(s, p.shown, grey);
  }

  lemma CharColours(m: Mode, c: char)
    requires m.useColor && (m.colorOpen ==> m.inThink)
    ensures Colours(CharEvents(m, c), m.colorOpen) == [m.inThink]
    ensures LastColour(CharEvents(m, c), m.colorOpen) == AfterChar(m, c).colorOpen == m.inThink
    ensures Tidy(CharEvents(m, c), m.colorOpen)
  {
    if m.inThink && !m.colorOpen {
      assert CharEvents(m, c) == [Grey, Char(c)];
      assert [Grey, Char(c)][1..] == [Char(c)];
    } else {
      assert CharEvents(m, c) == [Char(c)];
    }
    assert [Char(c)][1..] == [];
    assert Colours([], true) == [] && Colours([], false) == [];
    assert Colours([Char(c)], m.inThink) == [m.inThink];
    assert LastColour([Char(c)], m.inThink) == m.inThink && Tidy([Char(c)], m.inThink);
  }

  lemma CloseColours(m: Mode)
    requires m.useColor
    ensures Colours(CloseEvents(m), m.colorOpen) == []
    ensures !LastColour(CloseEvents(m), m.colorOpen) && !AfterClose(m).colorOpen
    ensures Tidy(CloseEvents(m), m.colorOpen)
  {
    var end: seq<Event> := if m.lastNewline then [] else [LineBreak];
    assert end == [] || end[1..] == [];
    assert Colours(end, false) == [] && !LastColour(end, false) && Tidy(end, false);
    if m.colorOpen {
      assert CloseEvents(m) == [Reset] + end;
      assert ([Reset] + end)[1..] == end;
    } else {
      assert CloseEvents(m) == end;
    }
  }

  lemma {:induction false} FilterColours(m: Mode, text: Text)
    requires m.useColor && (m.colorOpen ==> m.inThink)
    ensures var p := Filter(m, text, true);
            && Colours(p.shown, m.colorOpen) == Thinking(text, m.inThink)
            && LastColour(p.shown, m.colorOpen) == p.mode.colorOpen
            && Tidy(p.shown, m.colorOpen) && p.mode.useColor
    decreases |text|
  {
    hide CharEvents, CloseEvents, Colours, LastColour, Tidy;
    if text == "" {
      NothingShown(m.colorOpen);
    } else if OPEN <= text {
      FilterColours(m.(inThink := true), text[|OPEN|..]);
    } else if CLOSE <= text {
      var rest := text[|CLOSE|..];
      CloseColours(m);
      FilterColours(AfterClose(m), rest);
      ColoursAfter(CloseEvents(m), Filter(AfterClose(m), rest, true), m.colorOpen, false, []);
    } else {
      CharColours(m, text[0]);
      FilterColours(AfterChar(m, text[0]), text[1..]);
      ColoursAfter(CharEvents(m, text[0]), Filter(AfterChar(m, text[0]), text[1..], true),
                   m.colorOpen, m.inThink, [m.inThink]);
    }
  }

  lemma NothingShown(grey: bool)
    ensures Colours([], grey) == [] && LastColour([], grey) == grey && Tidy([], grey)
  {
  }

  function Begin(useColor: bool, inThink: bool): Pass {
    Start(Mode(useColor, inThink, false, true))
  }

  /** Everything shown of a reply, however it was cut. */
  lemma WholeReply(useColor: bool, inThink: bool, pieces: seq<Text>)
    ensures var p := Filter(Mode(useColor, inThink, false, true), Concat(pieces), true);
            Finish(Feed(Begin(useColor, inThink), pieces)).shown == p.shown + ResetEvents(p.mode)
  {
    hide Filter;
    var m := Mode(useColor, inThink, false, true);
    FeedIsOnePass(Start(m), pieces, true);
    assert "" + Concat(pieces) == Concat(pieces);
    AfterNothing(Filter(m, Concat(pieces), true));
  }

  /** On a coloured terminal a character is grey exactly when it is thinking, the colour never
      changes without need, and it is off in the end. */
  lemma GreyIsThinking(inThink: bool, pieces: seq<Text>)
    ensures var shown := Finish(Feed(Begin(true, inThink), pieces)).shown;
            && Colours(shown, false) == Thinking(Concat(pieces), inThink)
            && Tidy(shown, false) && !LastColour(shown, false)
  {
    hide Filter;
    var m := Mode(true, inThink, false, true);
    var p := Filter(m, Concat(pieces), true);
    WholeReply(true, inThink, pieces);
    FilterColours(m, Concat(pieces));
    var end := ResetEvents(p.mode);
    assert end == [] || (end == [Reset] && end[1..] == []);
    ColoursOf(p.shown, end, false);
    TidyOf(p.shown, end, false);
    assert Colours(end, p.mode.colorOpen) == [];
  }

  // ------------------------------------------------------------------------------
  // Lines
  // ------------------------------------------------------------------------------

  function PlainOf(e: Event): seq<Event> {
    if e.Char? || e.LineBreak? then [e] else []
  }

  /** What is shown, without its colours. */
  function Plain(shown: seq<Event>): seq<Event> {
    if shown == [] then [] else PlainOf(shown[0]) + Plain(shown[1..])
  }

  /** Nothing yet, or a line that has ended. */
  predicate EndsLine(out: seq<Event>) {
    out == [] || out[|out| - 1] == LineBreak || out[|out| - 1] == Char('\n')
  }

  /** `out` followed by the characters of the text, with a line break wherever the thinking ends
      within a line. */
  function Lines(text: Text, out: seq<Event>): seq<Event>
    decreases |text|
  {
    if text == "" then out
    else if OPEN <= text then Lines(text[|OPEN|..], out)
    else if CLOSE <= text then Lines(text[|CLOSE|..], if EndsLine(out) then out else out + [LineBreak])
    else Lines(text[1..], out + [Char(text[0])])
  }

  lemma {:induction false} PlainIs(s: seq<Event>, t: seq<Event>)
    ensures Plain(s + t) == Plain(s) + Plain(t)
  {
    if s == [] {
      assert s + t == t;
    } else {
      assert (s + t)[0] == s[0] && (s + t)[1..] == s[1..] + t;
      PlainIs(s[1..], t);
    }
  }

  lemma PlainOne(e: Event)
    ensures Plain([e]) == PlainOf(e)
  {
    assert [e][1..] == [];
    assert PlainOf(e) + Plain([]) == PlainOf(e);
  }

  lemma PlainNone()
    ensures Plain([]) == []
  {
  }

  lemma PlainSteps(m: Mode, c: char)
    ensures Plain(CharEvents(m, c)) == [Char(c)]
    ensures Plain(CloseEvents(m)) == if m.lastNewline then [] else [LineBreak]
    ensures Plain(ResetEvents(m)) == []
  {
    PlainOne(Grey);
    PlainOne(Reset);
    PlainOne(LineBreak);
    PlainOne(Char(c));
    PlainIs(if m.inThink && m.useColor && !m.colorOpen then [Grey] else [], [Char(c)]);
    PlainIs(ResetEvents(m), if m.lastNewline then [] else [LineBreak]);
  }

  lemma PlainAfter(s: seq<Event>, p: Pass, out: seq<Event>)
    ensures out + Plain(After(s, p).shown) == out + Plain(s) + Plain(p.shown)
  {
    PlainIs(s, p.shown);
    assert out + (Plain(s) + Plain(p.shown)) == out + Plain(s) + Plain(p.shown);
  }

  lemma {:induction false} FilterLines(m: Mode, text: Text, out: seq<Event>)
    requires m.lastNewline == EndsLine(out)
    ensures out + Plain(Filter(m, text, true).shown) == Lines(text, out)
    decreases |text|
  {
    hide CharEvents, CloseEvents, Plain, ResetEvents, PlainOf, After;
    if text == "" {
      PlainNone();
    } else if OPEN <= text {
      FilterLines(m.(inThink := true), text[|OPEN|..], out);
    } else if CLOSE <= text {
      PlainSteps(m, ' ');
      PlainAfter(CloseEvents(m), Filter(AfterClose(m), text[|CLOSE|..], true), out);
      FilterLines(AfterClose(m), text[|CLOSE|..], if EndsLine(out) then out else out + [LineBreak]);
    } else {
      PlainSteps(m, text[0]);
      PlainAfter(CharEvents(m, text[0]), Filter(AfterChar(m, text[0]), text[1..], true), out);
      FilterLines(AfterChar(m, text[0]), text[1..], out + [Char(text[0])]);
    }
  }

  /** With or without colours, the reader sees the text without its tags, and one more line
      break for each end of the thinking that was not at the end of a line. */
  lemma BreaksEndThinking(useColor: bool, inThink: bool, pieces: seq<Text>)
    ensures Plain(Finish(Feed(Begin(useColor, inThink), pieces)).shown) == Lines(Concat(pieces), [])
  {
    hide Filter;
    var m := Mode(useColor, inThink, false, true);
    var p := Filter(m, Concat(pieces), true);
    WholeReply(useColor, inThink, pieces);
    FilterLines(m, Concat(pieces), []);
    PlainIs(p.shown, ResetEvents(p.mode));
    PlainSteps(p.mode, ' ');
    assert Plain(p.shown) + [] == [] + Plain(p.shown);
  }

  // ------------------------------------------------------------------------------
  // Without colours
  // ------------------------------------------------------------------------------

  lemma {:induction false} FilterIsPlain(m: Mode, text: Text)
    requires !m.useColor
    ensures var p := Filter(m, text, true); !p.mode.useColor && Grey !in p.shown && Reset !in p.shown
    decreases |text|
  {
    if text == "" {
    } else if OPEN <= text {
      FilterIsPlain(m.(inThink := true), text[|OPEN|..]);
    } else if CLOSE <= text {
      FilterIsPlain(AfterClose(m), text[|CLOSE|..]);
    } else {
      FilterIsPlain(AfterChar(m, text[0]), text[1..]);
    }
  }

  lemma NoColourUnasked(inThink: bool, pieces: seq<Text>)
    ensures var shown := Finish(Feed(Begin(false, inThink), pieces)).shown; Grey !in shown && Reset !in shown
  {
    hide Filter;
    WholeReply(false, inThink, pieces);
    FilterIsPlain(Mode(false, inThink, false, true), Concat(pieces));
  }
}
