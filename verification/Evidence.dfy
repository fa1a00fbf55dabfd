/** Whitespace-normalised matching of quoted evidence (ds4_normalize_ws and the counting in
    ds4_crawl_verify_result in ds4_crawl_grounding.c). */
module Evidence {
  import opened Bytes

  type Text = seq<Byte>

  const BLANK: Byte := 0x20

  // ------------------------------------------------------------------------------
  // Normalisation
  // ------------------------------------------------------------------------------

  /** How far a pass has come: nothing but white space yet, last at a character, or at white
      space behind one. */
  datatype Place = Leading | InWord | Gap

  datatype Pass = Pass(out: Text, place: Place)

  const START := Pass([], Leading)

  function Step(p: Pass, c: Byte): Pass {
    if IsSpace(c) then p.(place := if p.place.Leading? then Leading else Gap)
    else Pass(p.out + (if p.place.Gap? then [BLANK] else []) + [c], InWord)
  }

  function Run(p: Pass, text: Text): Pass {
    if text == [] then p else Step(Run(p, text[..|text| - 1]), text[|text| - 1])
  }

  /** Every run of white space one blank, none at the ends. */
  function Normalize(text: Text): Text {
    Run(START, text).out
  }

  lemma {:induction false} RunAppend(p: Pass, s: Text, t: Text)
    ensures Run(p, s + t) == Run(Run(p, s), t)
    decreases |t|
  {
    if t == [] {
      assert s + t == s;
    } else {
      var front := t[..|t| - 1];
      assert (s + t)[..|s + t| - 1] == s + front;
      RunAppend(p, s, front);
    }
  }

  /** What normal text looks like: it starts and ends with a character, its only white space is
      the blank, and no two blanks meet. */
  ghost predicate Normal(text: Text) {
    && (text != [] ==> !IsSpace(text[0]) && !IsSpace(text[|text| - 1]))
    && (forall i | 0 <= i < |text| :: IsSpace(text[i]) ==> text[i] == BLANK)
    && (forall i | 0 < i < |text| :: !(IsSpace(text[i - 1]) && IsSpace(text[i])))
  }

  lemma {:induction false} RunIsNormal(text: Text)
    ensures var p := Run(START, text);
            Normal(p.out) && (p.place.Leading? <==> p.out == [])
  {
    if text != [] {
      RunIsNormal(text[..|text| - 1]);
    }
  }

  /** A normal text passes through unchanged, except that the place tells where it ends. */
  lemma {:induction false} NormalStays(text: Text)
    requires text == [] || !IsSpace(text[0])
    requires forall i | 0 <= i < |text| :: IsSpace(text[i]) ==> text[i] == BLANK
    requires forall i | 0 < i < |text| :: !(IsSpace(text[i - 1]) && IsSpace(text[i]))
    ensures var p := Run(START, text);
            if text == [] then p == START
            else if IsSpace(text[|text| - 1]) then p == Pass(text[..|text| - 1], Gap)
            else p == Pass(text, InWord)
  {
    if text != [] {
      var n := |text|;
      var front := text[..n - 1];
      NormalStays(front);
      assert text == front + [text[n - 1]];
      if 1 < n {
        assert front[|front| - 1] == text[n - 2];
        assert IsSpace(text[n - 2]) ==> front == front[..n - 2] + [BLANK];
      }
    }
  }

  /** Normalising gives normal text, and normalising again changes nothing. */
  lemma NormalizeIsIdempotent(text: Text)
    ensures Normal(Normalize(text)) && Normalize(Normalize(text)) == Normalize(text)
  {
    RunIsNormal(text);
    NormalStays(Normalize(text));
  }

  /** The words of a text: its longest runs without white space, in order. */
  function Words(text: Text): (r: seq<Text>)
    ensures text != [] && !IsSpace(text[|text| - 1]) ==> r != []
  {
    if text == [] then []
    else
      var front, c := text[..|text| - 1], text[|text| - 1];
      var words := Words(front);
      if IsSpace(c) then words
      else if front == [] || IsSpace(front[|front| - 1]) then words + [[c]]
      else words[..|words| - 1] + [words[|words| - 1] + [c]]
  }

  lemma WordsOfMore(front: Text, c: Byte)
    ensures var words := Words(front);
            Words(front + [c]) ==
            if IsSpace(c) then words
            else if front == [] || IsSpace(front[|front| - 1]) then words + [[c]]
            else words[..|words| - 1] + [words[|words| - 1] + [c]]
  {
    assert (front + [c])[..|front|] == front;
  }

  ghost predicate EndsInWord(text: Text) {
    text != [] && !IsSpace(text[|text| - 1])
  }

  ghost predicate KeepsWords(p: Pass, text: Text) {
    Words(p.out) == Words(text) && (p.place.InWord? <==> EndsInWord(text))
  }

  lemma StepKeepsWords(p: Pass, front: Text, c: Byte)
    requires KeepsWords(p, front)
    requires (p.place.Leading? <==> p.out == []) && (p.out != [] ==> EndsInWord(p.out))
    ensures KeepsWords(Step(p, c), front + [c])
  {
    hide Words;
    WordsOfMore(front, c);
    if p.place.Gap? && !IsSpace(c) {
      WordsOfMore(p.out, BLANK);
      WordsOfMore(p.out + [BLANK], c);
      assert Step(p, c).out == p.out + [BLANK] + [c];
    } else if !IsSpace(c) {
      WordsOfMore(p.out, c);
      assert Step(p, c).out == p.out + [c];
    }
  }

  /** A pass keeps the words, and ends within one exactly when the text does. */
  lemma {:induction false} RunKeepsWords(text: Text)
    ensures KeepsWords(Run(START, text), text)
  {
    if text != [] {
      hide KeepsWords, Run, Step, EndsInWord;
      var front, c := text[..|text| - 1], text[|text| - 1];
      RunKeepsWords(front);
      EndsAtCharacter(front);
      StepKeepsWords(Run(START, front), front, c);
      LastStep(text);
      assert text == front + [c];
    }
  }

  lemma LastStep(text: Text)
    requires text != []
    ensures Run(START, text) == Step(Run(START, text[..|text| - 1]), text[|text| - 1])
  {
  }

  lemma EndsAtCharacter(text: Text)
    ensures var p := Run(START, text); (p.place.Leading? <==> p.out == []) && (p.out != [] ==> EndsInWord(p.out))
  {
    RunIsNormal(text);
  }

  /** Normalising keeps the words of a text and their order. */
  lemma NormalizeKeepsWords(text: Text)
    ensures Words(Normalize(text)) == Words(text)
  {
    RunKeepsWords(text);
  }

  // ------------------------------------------------------------------------------
  // Containment
  // ------------------------------------------------------------------------------

  ghost predicate Contains(whole: Text, part: Text) {
    exists before: Text, after: Text :: whole == before + part + after
  }

  /** A pass from anywhere differs from a fresh one only in what stands before, and perhaps in
      one blank between. */
  lemma {:induction false} FreshPass(p: Pass, text: Text) returns (glue: Text)
    ensures Normalize(text) == [] ==> Run(p, text).out == p.out && Run(START, text) == START
    ensures Normalize(text) != [] ==>
              Run(p, text) == Pass(p.out + glue + Normalize(text), Run(START, text).place)
  {
    glue := [];
    if text != [] {
      var front, c := text[..|text| - 1], text[|text| - 1];
      glue := FreshPass(p, front);
      RunIsNormal(front);
      var q, r := Run(p, front), Run(START, front);
      if Normalize(front) == [] {
        if !IsSpace(c) {
          glue := if q.place.Gap? then [BLANK] else [];
        }
      } else if !IsSpace(c) {
        var more := if r.place.Gap? then [BLANK] + [c] else [c];
        assert Step(q, c).out == p.out + glue + r.out + more;
        assert Step(r, c).out == r.out + more;
      }
    }
  }

  lemma {:induction false} OutGrows(p: Pass, text: Text)
    ensures p.out <= Run(p, text).out
  {
    if text != [] {
      OutGrows(p, text[..|text| - 1]);
    }
  }

  /** The normal form of any stretch of a text stands in the normal form of the text. */
  lemma NormalFormIsContained(before: Text, excerpt: Text, after: Text)
    ensures Contains(Normalize(before + excerpt + after), Normalize(excerpt))
  {
    hide Step;
    var p := Run(START, before);
    RunAppend(START, before, excerpt);
    RunAppend(START, before + excerpt, after);
    var q := Run(p, excerpt);
    var glue := FreshPass(p, excerpt);
    OutGrows(q, after);
    var whole := Run(q, after).out;
    assert whole == q.out + whole[|q.out|..];
    if Normalize(excerpt) != [] {
      assert whole == (p.out + glue) + Normalize(excerpt) + whole[|q.out|..];
    } else {
      assert whole == [] + Normalize(excerpt) + whole;
    }
  }

  // ------------------------------------------------------------------------------
  // The code
  // ------------------------------------------------------------------------------

  method NormalizeWs(text: Text) returns (out: Text)
    ensures out == Normalize(text) && |out| <= |text|
  {
    out := [];
    var pendingSpace, started := false, false;
    for i := 0 to |text|
      invariant Run(START, text[..i]) ==
                Pass(out, if !started then Leading else if pendingSpace then Gap else InWord)
      invariant |out| + (if pendingSpace then 1 else 0) <= i && (pendingSpace ==> started)
    {
      assert text[..i + 1][..i] == text[..i];
      var c := text[i];
      if IsSpace(c) {
        pendingSpace := started;
        continue;
      }
      if pendingSpace {
        out := out + [BLANK];
        pendingSpace := false;
      }
      out := out + [c];
      started := true;
    }
    assert text[..|text|] == text;
  }

  predicate At(whole: Text, part: Text, i: nat) {
    i + |part| <= |whole| && whole[i..i + |part|] == part
  }

  lemma AtContains(whole: Text, part: Text)
    ensures Contains(whole, part) <==> exists i: nat :: At(whole, part, i)
  {
    if Contains(whole, part) {
      var before: Text, after: Text :| whole == before + part + after;
      assert At(whole, part, |before|);
    }
    if exists i: nat :: At(whole, part, i) {
      var i: nat :| At(whole, part, i);
      assert whole == whole[..i] + part + whole[i + |part|..];
    }
  }

  /** Whether `part` stands somewhere in `whole`. */
  method Find(whole: Text, part: Text) returns (found: bool)
    ensures found <==> Contains(whole, part)
  {
    hide Contains;
    AtContains(whole, part);
    var i := 0;
    while i + |part| <= |whole|
      invariant forall j: nat | j < i :: !At(whole, part, j)
    {
      if At(whole, part, i) {
        return true;
      }
      i := i + 1;
    }
    found := false;
  }

  ghost function Quotes(items: seq<Text>): nat {
    if items == [] then 0
    else Quotes(items[..|items| - 1]) + if Normalize(items[|items| - 1]) != [] then 1 else 0
  }

  ghost predicate Backed(source: Text, item: Text) {
    Normalize(item) != [] && Contains(Normalize(source), Normalize(item))
  }

  ghost function BackedQuotes(source: Text, items: seq<Text>): nat {
    if items == [] then 0
    else BackedQuotes(source, items[..|items| - 1]) + if Backed(source, items[|items| - 1]) then 1 else 0
  }

  /** Count the quotations that are not blank, and those of them found in the source. */
  method CountEvidence(source: Text, items: seq<Text>) returns (total: nat, found: nat)
    ensures total == Quotes(items) && found == BackedQuotes(source, items) && found <= total
  {
    hide Normalize, Contains;
    total, found := 0, 0;
    var normalized := NormalizeWs(source);
    for i := 0 to |items|
      invariant total == Quotes(items[..i]) && found == BackedQuotes(source, items[..i]) && found <= total
    {
      assert items[..i + 1][..i] == items[..i];
      var excerpt := NormalizeWs(items[i]);
      if excerpt != [] {
        total := total + 1;
        var here := Find(normalized, excerpt);
        if here {
          found := found + 1;
        }
      }
    }
    assert items[..|items|] == items;
  }

  ghost predicate Verbatim(source: Text, item: Text) {
    exists before: Text, after: Text :: source == before + item + after
  }

  /** When every quotation is taken verbatim from the source, every one that is not blank is
      found. */
  lemma {:induction false} VerbatimQuotesAreFound(source: Text, items: seq<Text>)
    requires forall item | item in items :: Verbatim(source, item)
    ensures BackedQuotes(source, items) == Quotes(items)
  {
    if items != [] {
      hide Normalize, Contains;
      VerbatimQuotesAreFound(source, items[..|items| - 1]);
      var item := items[|items| - 1];
      assert Verbatim(source, item);
      var before: Text, after: Text :| source == before + item + after;
      NormalFormIsContained(before, item, after);
    }
  }
}
