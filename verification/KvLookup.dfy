/** Finding and loading the checkpoint whose text is the longest prefix of a prompt
    (ds4_kvstore_find_text_prefix, ds4_kvstore_try_load_text and
    ds4_kvstore_build_prompt_from_exact_prefix_and_text_suffix in ds4_kvstore.c). */
module KvLookup {
  import opened Wrappers
  import Sha1

  type Text = seq<bv8>

  /** A cache file as its header describes it; `sha` is the hash in its name. */
  datatype Entry = Entry(textBytes: nat, tokens: nat, modelId: nat, ctxSize: nat, quantBits: nat, sha: Text)

  /** What the caller is looking for. */
  datatype Query = Query(prompt: Text, modelId: nat, quantBits: nat, ctxSize: nat, minTokens: int, rejectDifferentQuant: bool)

  /** A 32-bit word read as an int. */
  function AsInt(w: nat): int {
    if w < 0x8000_0000 then w else w - 0x1_0000_0000
  }

  predicate Compatible(q: Query, e: Entry) {
    && e.textBytes <= |q.prompt|
    && q.minTokens <= AsInt(e.tokens)
    && e.modelId == q.modelId % 0x100
    && e.ctxSize <= q.ctxSize
    && (q.rejectDifferentQuant ==> e.quantBits == q.quantBits % 0x100)
  }

  /** Whether an entry's name is the hash of a prefix of the prompt. */
  predicate NamesPrefix(q: Query, e: Entry)
    requires e.textBytes <= |q.prompt|
  {
    Sha1.Digest(q.prompt[..e.textBytes]) == e.sha
  }

  predicate Candidate(q: Query, e: Entry) {
    Compatible(q, e) && NamesPrefix(q, e)
  }

  /** Longer text first, then more tokens. */
  predicate Better(a: Entry, b: Entry) {
    b.textBytes < a.textBytes || (a.textBytes == b.textBytes && b.tokens < a.tokens)
  }

  /** The first of the best candidates among the first `n` entries. */
  ghost predicate IsBest(q: Query, entries: seq<Entry>, n: nat, best: int)
    requires n <= |entries|
  {
    if best < 0 then best == -1 && forall i | 0 <= i < n :: !Candidate(q, entries[i])
    else
      && best < n && Candidate(q, entries[best])
      && (forall i | 0 <= i < n && Candidate(q, entries[i]) :: !Better(entries[i], entries[best]))
      && (forall i | 0 <= i < best && Candidate(q, entries[i]) :: Better(entries[best], entries[i]))
  }

  method FindTextPrefix(q: Query, entries: seq<Entry>) returns (best: int)
    ensures IsBest(q, entries, |entries|, best)
  {
    hide NamesPrefix;
    best := -1;
    for i := 0 to |entries|
      invariant IsBest(q, entries, i, best)
    {
      var e := entries[i];
      if |q.prompt| < e.textBytes {
        continue;
      }
      if AsInt(e.tokens) < q.minTokens {
        continue;
      }
      if e.modelId != q.modelId % 0x100 {
        continue;
      }
      if q.ctxSize < e.ctxSize {
        continue;
      }
      if q.rejectDifferentQuant && e.quantBits != q.quantBits % 0x100 {
        continue;
      }
      if 0 <= best {
        var b := entries[best];
        if e.textBytes < b.textBytes {
          continue;
        }
        if e.textBytes == b.textBytes && e.tokens <= b.tokens {
          continue;
        }
      }
      if NamesPrefix(q, e) {
        best := i;
      }
    }
  }

  /** The result is determined: there is one best index. */
  lemma OneBest(q: Query, entries: seq<Entry>, a: int, b: int)
    requires IsBest(q, entries, |entries|, a) && IsBest(q, entries, |entries|, b)
    ensures a == b
  {
    hide Candidate;
  }

  // ------------------------------------------------------------------------------
  // Loading
  // ------------------------------------------------------------------------------

  /** The file behind an entry when it is opened again: the header may have changed, the text
      may be cut short, and the payload may not load. */
  datatype File = File(header: Option<Header>, text: Text, payload: Option<seq<nat>>)

  datatype Header = Header(modelId: nat, tokens: nat, hits: nat, textBytes: nat)

  datatype Loaded = NotLoaded(sessionKept: bool) | Loaded(tokens: seq<nat>, suffix: Text)

  /** What becomes of the file: it stays, counts a hit, or goes. */
  datatype Fate = Untouched | Touched(hits: nat) | Deleted

  /** The file opened again has a text of the name's hash that the prompt starts with. */
  predicate TextMatches(q: Query, e: Entry, file: File) {
    && file.header.Some? && file.header.value.modelId == q.modelId % 0x100
    && file.header.value.textBytes <= |file.text| && file.header.value.textBytes <= |q.prompt|
    && Sha1.Digest(file.text[..file.header.value.textBytes]) == e.sha
    && file.text[..file.header.value.textBytes] <= q.prompt
  }

  /** Read the file at `best`, and take its tokens over when its text really is what the prompt
      starts with.  A payload with the wrong number of tokens is deleted; so is a checkpoint
      longer than `coldMax`, which is only used once. */
  method TryLoad(q: Query, e: Entry, file: File, coldMax: int) returns (r: Loaded, fate: Fate)
    ensures r.Loaded? ==>
              var stored := if TextMatches(q, e, file) then file.text[..file.header.value.textBytes] else [];
              stored + r.suffix == q.prompt && Sha1.Digest(stored) == e.sha && file.payload == Some(r.tokens)
    ensures r.Loaded? <==>
              TextMatches(q, e, file) && file.payload.Some? && |file.payload.value| == AsInt(file.header.value.tokens)
    ensures r.NotLoaded? ==> (r.sessionKept <==> !TextMatches(q, e, file))
    ensures fate.Deleted? <==>
              && TextMatches(q, e, file) && file.payload.Some?
              && (|file.payload.value| == AsInt(file.header.value.tokens) ==> 0 < coldMax < |file.payload.value|)
    ensures fate.Touched? <==> r.Loaded? && !fate.Deleted?
    ensures fate.Touched? ==> fate.hits == (file.header.value.hits + 1) % 0x1_0000_0000
  {
    hide Sha1.Digest;
    fate := Untouched;
    if file.header.None? {
      return NotLoaded(true), Untouched;
    }
    var h := file.header.value;
    if h.modelId != q.modelId % 0x100 {
      return NotLoaded(true), Untouched;
    }
    if |q.prompt| < h.textBytes {
      return NotLoaded(true), Untouched;
    }
    if |file.text| < h.textBytes {
      return NotLoaded(true), Untouched;
    }
    var cached := file.text[..h.textBytes];
    if Sha1.Digest(cached) != e.sha {
      return NotLoaded(true), Untouched;
    }
    if q.prompt[..h.textBytes] != cached {
      return NotLoaded(true), Untouched;
    }
    if file.payload.None? {
      return NotLoaded(false), Untouched;
    }
    if |file.payload.value| != AsInt(h.tokens) {
      return NotLoaded(false), Deleted;
    }
    r := Loaded(file.payload.value, q.prompt[h.textBytes..]);
    assert cached + r.suffix == q.prompt;
    if 0 < coldMax < |file.payload.value| {
      fate := Deleted;
    } else {
      fate := Touched((h.hits + 1) % 0x1_0000_0000);
    }
  }

  // ------------------------------------------------------------------------------
  // What a caller gets
  // ------------------------------------------------------------------------------

  /** The entry can be used for the query as far as its header goes. */
  ghost predicate Usable(q: Query, e: Entry) {
    && e.tokens < 0x8000_0000 && q.minTokens <= e.tokens
    && e.modelId == q.modelId % 0x100 && e.ctxSize <= q.ctxSize
    && (q.rejectDifferentQuant ==> e.quantBits == q.quantBits % 0x100)
  }

  /** The entry was stored for the text `t`. */
  ghost predicate StoredFor(e: Entry, t: Text) {
    e.textBytes == |t| && e.sha == Sha1.Digest(t)
  }

  /** If anything usable was stored for a text that the prompt starts with, then an entry is
      found, for a text at least that long, and with at least as many tokens if it is the same. */
  lemma LongestPrefixIsFound(q: Query, entries: seq<Entry>, best: int, i: nat, t: Text)
    requires IsBest(q, entries, |entries|, best)
    requires i < |entries| && t <= q.prompt && StoredFor(entries[i], t) && Usable(q, entries[i])
    ensures 0 <= best < |entries| && |t| <= entries[best].textBytes
    ensures entries[best].textBytes == |t| ==> entries[i].tokens <= entries[best].tokens
  {
    hide Sha1.Digest;
    assert q.prompt[..|t|] == t;
    assert Candidate(q, entries[i]);
  }

  /** And whatever is found is named by the hash of what the prompt starts with, is usable, and
      is the first such in the listing. */
  lemma FoundIsPrefix(q: Query, entries: seq<Entry>, best: int)
    requires IsBest(q, entries, |entries|, best) && 0 <= best
    ensures best < |entries| && entries[best].textBytes <= |q.prompt|
    ensures StoredFor(entries[best], q.prompt[..entries[best].textBytes])
    ensures entries[best].tokens < 0x8000_0000 ==> Usable(q, entries[best])
    ensures forall j | 0 <= j < best && Usable(q, entries[j]) && entries[j].textBytes == entries[best].textBytes
              && entries[j].sha == entries[best].sha :: entries[j].tokens < entries[best].tokens
  {
    hide Sha1.Digest;
    forall j | 0 <= j < best && Usable(q, entries[j]) && entries[j].textBytes == entries[best].textBytes
      && entries[j].sha == entries[best].sha
      ensures entries[j].tokens < entries[best].tokens
    {
      assert Candidate(q, entries[j]);
    }
  }

  /** The file still is what its entry says, and holds the text `t` and these tokens. */
  ghost predicate Unchanged(e: Entry, file: File, t: Text, tokens: seq<nat>) {
    && file.header.Some? && file.header.value.modelId == e.modelId
    && file.header.value.tokens == e.tokens && file.header.value.textBytes == e.textBytes == |t| <= |file.text|
    && file.text[..|t|] == t && file.payload == Some(tokens) && |tokens| == e.tokens
  }

  /** The whole call: search the listing, then load what was found. */
  method TryLoadText(q: Query, entries: seq<Entry>, files: seq<File>, coldMax: int) returns (r: Loaded, best: int, fate: Fate)
    requires |files| == |entries|
    ensures IsBest(q, entries, |entries|, best)
    ensures best < 0 ==> r == NotLoaded(true) && fate == Untouched
    // what is loaded goes on to the prompt
    ensures r.Loaded? ==>
      && 0 <= best && files[best].payload == Some(r.tokens)
      && |r.suffix| <= |q.prompt| && q.prompt[|q.prompt| - |r.suffix|..] == r.suffix
      && Sha1.Digest(q.prompt[..|q.prompt| - |r.suffix|]) == entries[best].sha
    // and an unchanged file of a usable entry does load
    ensures 0 <= best && Usable(q, entries[best])
            && Unchanged(entries[best], files[best], q.prompt[..entries[best].textBytes],
                         if files[best].payload.Some? then files[best].payload.value else []) ==>
      r == Loaded(files[best].payload.value, q.prompt[entries[best].textBytes..])
  {
    hide Sha1.Digest;
    best := FindTextPrefix(q, entries);
    if best < 0 {
      return NotLoaded(true), best, Untouched;
    }
    FoundIsPrefix(q, entries, best);
    r, fate := TryLoad(q, entries[best], files[best], coldMax);
    if r.Loaded? {
      SuffixOf(files[best].text[..files[best].header.value.textBytes], r.suffix, q.prompt);
    }
  }

  lemma SuffixOf(stored: Text, suffix: Text, prompt: Text)
    requires stored + suffix == prompt
    ensures |suffix| <= |prompt| && prompt[..|prompt| - |suffix|] == stored && prompt[|prompt| - |suffix|..] == suffix
    ensures prompt[|stored|..] == suffix
  {
  }

  /** The prompt to go on with: the tokens of the checkpoint, then the rest of the text,
      tokenised on its own. */
  function EffectivePrompt(tokenize: Text -> seq<nat>, tokens: seq<nat>, suffix: Text): seq<nat> {
    tokens + tokenize(suffix)
  }

  function RenderAll(render: nat -> Text, tokens: seq<nat>): Text {
    if tokens == [] then [] else render(tokens[0]) + RenderAll(render, tokens[1..])
  }

  lemma {:induction false} RenderAppend(render: nat -> Text, s: seq<nat>, t: seq<nat>)
    ensures RenderAll(render, s + t) == RenderAll(render, s) + RenderAll(render, t)
  {
    if s == [] {
      assert s + t == t;
    } else {
      assert (s + t)[1..] == s[1..] + t;
      RenderAppend(render, s[1..], t);
    }
  }

  /** For a checkpoint filed under the rendering of its own tokens, the effective prompt renders
      back to exactly the prompt, as long as tokenising keeps the text. */
  lemma LoadedPromptRendersBack(q: Query, stored: Text, tokens: seq<nat>, suffix: Text,
                                tokenize: Text -> seq<nat>, render: nat -> Text)
    requires stored + suffix == q.prompt
    requires RenderAll(render, tokens) == stored
    requires forall text :: RenderAll(render, tokenize(text)) == text
    ensures RenderAll(render, EffectivePrompt(tokenize, tokens, suffix)) == q.prompt
  {
    RenderAppend(render, tokens, tokenize(suffix));
  }
}
