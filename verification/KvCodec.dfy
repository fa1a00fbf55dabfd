/** Encoding and decoding of saved sessions and of the layer payloads of single nodes. */
module KvCodec {
  import opened Wrappers
  import opened Bytes
  import opened KvFormat

  // ------------------------------------------------------------------------------
  // Values
  // ------------------------------------------------------------------------------

  /** A whole session: layout, token timeline, logits, and for every layer its compressed row
      count, its indexer row count and its tensors. */
  datatype Snapshot = Snapshot(
    layout: Layout,
    tokens: seq<U32>,
    logits: seq<Byte>,
    comps: seq<U32>,
    indices: seq<U32>,
    tensors: seq<seq<Byte>>)

  /** The layers of one node; the tensors of its layers are one run of bytes. */
  datatype Shard = Shard(layout: Layout, first: U32, last: U32, comps: seq<U32>, indices: seq<U32>, tensors: seq<Byte>)

  function Min(a: nat, b: nat): nat {
    if a < b then a else b
  }

  predicate RawLiveValid(l: Layout) {
    && l.rawWindow != 0 && l.rawCap != 0
    && l.rawLive == Min(l.tokenCount, l.rawWindow)
    && l.rawLive <= l.rawCap
  }

  predicate AllBelow(ws: seq<U32>, bound: nat) {
    forall w | w in ws :: w < bound
  }

  predicate CountsOk(l: Layout, counts: seq<U32>, n: nat) {
    |counts| == n && AllBelow(counts, l.compCap + 1)
  }

  /** Sizes of the tensors of consecutive layers starting at `first`. */
  function Sizes(engine: Engine, l: Layout, first: nat, comps: seq<U32>, indices: seq<U32>): (r: seq<nat>)
    requires |comps| == |indices| && first + |comps| <= |engine.ratios|
    ensures |r| == |comps|
    ensures forall i | 0 <= i < |r| :: r[i] == LayerSize(l, engine.ratios[first + i], comps[i], indices[i])
  {
    seq(|comps|, i requires 0 <= i < |comps| => LayerSize(l, engine.ratios[first + i], comps[i], indices[i]))
  }

  function Sum(sizes: seq<nat>): nat {
    if sizes == [] then 0 else sizes[0] + Sum(sizes[1..])
  }

  predicate LayoutOk(engine: Engine, l: Layout) {
    l.nLayers == |engine.ratios| && l.vocab == engine.vocab && RawLiveValid(l)
  }

  ghost predicate SnapshotOk(engine: Engine, s: Snapshot) {
    && LayoutOk(engine, s.layout)
    && |s.tokens| == s.layout.tokenCount
    && |s.logits| == 4 * engine.vocab
    && CountsOk(s.layout, s.comps, |engine.ratios|)
    && CountsOk(s.layout, s.indices, |engine.ratios|)
    && Sized(s.tensors, Sizes(engine, s.layout, 0, s.comps, s.indices))
  }

  ghost predicate ShardOk(engine: Engine, s: Shard) {
    && LayoutOk(engine, s.layout)
    && s.first <= s.last < |engine.ratios|
    && CountsOk(s.layout, s.comps, s.last - s.first + 1)
    && CountsOk(s.layout, s.indices, s.last - s.first + 1)
    && |s.tensors| == Sum(Sizes(engine, s.layout, s.first, s.comps, s.indices))
  }

  // ------------------------------------------------------------------------------
  // Session files
  // ------------------------------------------------------------------------------

  function SessionHeader(l: Layout): (h: seq<U32>)
    ensures |h| == SESSION_FIELDS
  {
    [SESSION_MAGIC, SESSION_VERSION, l.ctx, l.prefillCap, l.rawCap, l.rawWindow, l.compCap, l.tokenCount,
     l.nLayers, l.headDim, l.indexerHeadDim, l.vocab, l.rawLive]
  }

  function SessionLayout(h: seq<U32>): Layout
    requires |h| == SESSION_FIELDS
  {
    Layout(h[2], h[3], h[4], h[5], h[6], h[7], h[8], h[9], h[10], h[11], h[12])
  }

  /** The file a single node writes. */
  function EncodeSession(s: Snapshot): seq<Byte> {
    PutWords(SessionHeader(s.layout)) +
    (PutWords(s.tokens) + (s.logits + (PutWords(s.comps) + (PutWords(s.indices) + Concat(s.tensors)))))
  }

  /** Which sessions a coordinator with a given context size can take. */
  predicate Loadable(engine: Engine, ctx: U32, l: Layout) {
    LayoutOk(engine, l) && l.ctx <= ctx && l.tokenCount < ctx
  }

  /** Tokens are ints inside the vocabulary. */
  function TokenBound(engine: Engine): nat {
    Min(engine.vocab, 0x8000_0000)
  }

  predicate TokensOk(engine: Engine, tokens: seq<U32>) {
    AllBelow(tokens, TokenBound(engine))
  }

  function DecodeSession(engine: Engine, ctx: U32, b: seq<Byte>): Option<Snapshot>
    requires 0 < |engine.ratios|
  {
    match TakeWords(b, SESSION_FIELDS)
    case Short => None
    case Got(h, body) =>
      TakeWordsLength(b, SESSION_FIELDS);
      if h[0] != SESSION_MAGIC || h[1] != SESSION_VERSION || !Loadable(engine, ctx, SessionLayout(h)) then None
      else DecodeBody(engine, SessionLayout(h), body)
  }

  function DecodeBody(engine: Engine, l: Layout, b: seq<Byte>): Option<Snapshot>
    requires LayoutOk(engine, l)
  {
    match TakeWords(b, l.tokenCount)
    case Short => None
    case Got(tokens, b1) =>
      if !TokensOk(engine, tokens) then None
      else match TakeBytes(b1, 4 * l.vocab)
           case Short => None
           case Got(logits, b2) => DecodeLayers(engine, l, tokens, logits, b2)
  }

  function DecodeLayers(engine: Engine, l: Layout, tokens: seq<U32>, logits: seq<Byte>, b: seq<Byte>): Option<Snapshot>
    requires LayoutOk(engine, l)
  {
    match TakeWords(b, l.nLayers)
    case Short => None
    case Got(comps, b1) =>
      TakeWordsLength(b, l.nLayers);
      if !AllBelow(comps, l.compCap + 1) then None
      else match TakeWords(b1, l.nLayers)
           case Short => None
           case Got(indices, b2) =>
             TakeWordsLength(b1, l.nLayers);
             if !AllBelow(indices, l.compCap + 1) then None
             else match TakeParts(b2, Sizes(engine, l, 0, comps, indices))
                  case Short => None
                  case Got(tensors, end) =>
                    if end == [] then Some(Snapshot(l, tokens, logits, comps, indices, tensors)) else None
  }

  lemma {:induction false} TakeWordsLength(b: seq<Byte>, n: nat)
    ensures TakeWords(b, n).Got? ==> |TakeWords(b, n).value| == n
  {
    if TakeWords(b, n).Got? {
      TakeWordsInverse(b, n, TakeWords(b, n).value, TakeWords(b, n).rest);
    }
  }

  lemma LayersInverse(engine: Engine, l: Layout, tokens: seq<U32>, logits: seq<Byte>, b: seq<Byte>, s: Snapshot)
    requires LayoutOk(engine, l) && s.layout == l && s.tokens == tokens && s.logits == logits
    ensures DecodeLayers(engine, l, tokens, logits, b) == Some(s) <==>
            && CountsOk(l, s.comps, l.nLayers) && CountsOk(l, s.indices, l.nLayers)
            && Sized(s.tensors, Sizes(engine, l, 0, s.comps, s.indices))
            && b == PutWords(s.comps) + (PutWords(s.indices) + Concat(s.tensors))
  {
    hide TakeWords, TakeParts, PutWords, Concat, AllBelow, Sized, RawLiveValid;
    var n := l.nLayers;
    var t2 := Concat(s.tensors);
    var t1 := PutWords(s.indices) + t2;
    TakeWordsInverse(b, n, s.comps, t1);
    TakeWordsInverse(t1, n, s.indices, t2);
    TakeWordsLength(b, n);
    assert t2 + [] == t2;
    if |s.comps| == n && |s.indices| == n {
      TakePartsInverse(t2, Sizes(engine, l, 0, s.comps, s.indices), s.tensors, []);
    }
    if DecodeLayers(engine, l, tokens, logits, b) == Some(s) {
      var r1 := TakeWords(b, n).rest;
      TakeWordsInverse(b, n, s.comps, r1);
      TakeWordsLength(r1, n);
      var r2 := TakeWords(r1, n).rest;
      TakeWordsInverse(r1, n, s.indices, r2);
      TakePartsInverse(r2, Sizes(engine, l, 0, s.comps, s.indices), s.tensors, []);
      assert r2 == t2;
    }
  }

  lemma BodyInverse(engine: Engine, l: Layout, b: seq<Byte>, s: Snapshot)
    requires LayoutOk(engine, l) && s.layout == l
    ensures DecodeBody(engine, l, b) == Some(s) <==>
            && SnapshotOk(engine, s) && TokensOk(engine, s.tokens)
            && b == PutWords(s.tokens) + (s.logits + (PutWords(s.comps) + (PutWords(s.indices) + Concat(s.tensors))))
  {
    hide TakeWords, TakeBytes, PutWords, Concat, DecodeLayers, TokensOk, AllBelow, RawLiveValid;
    var t2 := PutWords(s.comps) + (PutWords(s.indices) + Concat(s.tensors));
    var t1 := s.logits + t2;
    TakeWordsInverse(b, l.tokenCount, s.tokens, t1);
    TakeBytesInverse(t1, 4 * l.vocab, s.logits, t2);
    LayersInverse(engine, l, s.tokens, s.logits, t2, s);
    if DecodeBody(engine, l, b) == Some(s) {
      var tokens, r1 := TakeWords(b, l.tokenCount).value, TakeWords(b, l.tokenCount).rest;
      var logits, r2 := TakeBytes(r1, 4 * l.vocab).value, TakeBytes(r1, 4 * l.vocab).rest;
      DecodeKeeps(engine, l, tokens, logits, r2);
      TakeWordsInverse(b, l.tokenCount, s.tokens, r1);
      TakeBytesInverse(r1, 4 * l.vocab, s.logits, r2);
      LayersInverse(engine, l, s.tokens, s.logits, r2, s);
    }
  }

  lemma DecodeKeeps(engine: Engine, l: Layout, tokens: seq<U32>, logits: seq<Byte>, b: seq<Byte>)
    requires LayoutOk(engine, l)
    ensures var r := DecodeLayers(engine, l, tokens, logits, b);
            r.Some? ==> r.value.layout == l && r.value.tokens == tokens && r.value.logits == logits
  {
    hide TakeWords, TakeParts, AllBelow, RawLiveValid;
  }

  /** The loader's reading of a file is the session it encodes, and it reads nothing else. */
  lemma SessionInverse(engine: Engine, ctx: U32, b: seq<Byte>, s: Snapshot)
    requires 0 < |engine.ratios|
    ensures DecodeSession(engine, ctx, b) == Some(s) <==>
            && SnapshotOk(engine, s) && Loadable(engine, ctx, s.layout) && TokensOk(engine, s.tokens)
            && b == EncodeSession(s)
  {
    hide TakeWords, PutWords, DecodeBody, Loadable, LayoutOk, TokensOk;
    var body := PutWords(s.tokens) + (s.logits + (PutWords(s.comps) + (PutWords(s.indices) + Concat(s.tensors))));
    var h := SessionHeader(s.layout);
    assert SessionLayout(h) == s.layout;
    TakeWordsInverse(b, SESSION_FIELDS, h, body);
    if DecodeSession(engine, ctx, b) == Some(s) {
      var g, rest := TakeWords(b, SESSION_FIELDS).value, TakeWords(b, SESSION_FIELDS).rest;
      TakeWordsLength(b, SESSION_FIELDS);
      LoadableIsOk(engine, ctx, SessionLayout(g));
      BodyKeepsLayout(engine, SessionLayout(g), rest);
      assert g == h;
      TakeWordsInverse(b, SESSION_FIELDS, h, rest);
      BodyInverse(engine, s.layout, rest, s);
    } else if Loadable(engine, ctx, s.layout) && b == EncodeSession(s) {
      LoadableIsOk(engine, ctx, s.layout);
      BodyInverse(engine, s.layout, body, s);
    }
  }

  lemma LoadableIsOk(engine: Engine, ctx: U32, l: Layout)
    requires Loadable(engine, ctx, l)
    ensures LayoutOk(engine, l)
  {
  }

  lemma BodyKeepsLayout(engine: Engine, l: Layout, b: seq<Byte>)
    requires LayoutOk(engine, l)
    ensures DecodeBody(engine, l, b).Some? ==> DecodeBody(engine, l, b).value.layout == l
  {
    hide TakeWords, TakeBytes, DecodeLayers, TokensOk;
    forall tokens, logits, rest
      ensures DecodeLayers(engine, l, tokens, logits, rest).Some? ==>
                DecodeLayers(engine, l, tokens, logits, rest).value.layout == l
    {
      DecodeKeeps(engine, l, tokens, logits, rest);
    }
  }

  // ------------------------------------------------------------------------------
  // Layer payloads
  // ------------------------------------------------------------------------------

  function LayerHeader(l: Layout, first: U32, last: U32): (h: seq<U32>)
    ensures |h| == LAYER_FIELDS
  {
    [LAYER_MAGIC, LAYER_VERSION, l.ctx, l.prefillCap, l.rawCap, l.rawWindow, l.compCap, l.tokenCount,
     l.nLayers, l.headDim, l.indexerHeadDim, first, last, l.rawLive]
  }

  /** A layer payload does not name the vocabulary; the reader supplies it. */
  function LayerLayout(h: seq<U32>, vocab: U32): Layout
    requires |h| == LAYER_FIELDS
  {
    Layout(h[2], h[3], h[4], h[5], h[6], h[7], h[8], h[9], h[10], vocab, h[13])
  }

  function EncodeShard(s: Shard): seq<Byte> {
    PutWords(LayerHeader(s.layout, s.first, s.last)) + (PutWords(s.comps) + (PutWords(s.indices) + s.tensors))
  }

  function DecodeShard(engine: Engine, b: seq<Byte>, first: U32, last: U32): Option<Shard>
  {
    match TakeWords(b, LAYER_FIELDS)
    case Short => None
    case Got(h, body) =>
      TakeWordsLength(b, LAYER_FIELDS);
      var l := LayerLayout(h, engine.vocab);
      if h[0] != LAYER_MAGIC || h[1] != LAYER_VERSION then None
      else if h[11] != first || h[12] != last || last < first || l.nLayers <= last then None
      else if !LayoutOk(engine, l) then None
      else DecodeShardBody(engine, l, first, last, body)
  }

  function DecodeShardBody(engine: Engine, l: Layout, first: U32, last: U32, b: seq<Byte>): Option<Shard>
    requires LayoutOk(engine, l) && first <= last < l.nLayers
  {
    var n: nat := last - first + 1;
    match TakeWords(b, n)
    case Short => None
    case Got(comps, b1) =>
      TakeWordsLength(b, n);
      if !AllBelow(comps, l.compCap + 1) then None
      else match TakeWords(b1, n)
           case Short => None
           case Got(indices, b2) =>
             TakeWordsLength(b1, n);
             if !AllBelow(indices, l.compCap + 1) then None
             else if |b2| != Sum(Sizes(engine, l, first, comps, indices)) then None
             else Some(Shard(l, first, last, comps, indices, b2))
  }

  lemma ShardBodyInverse(engine: Engine, l: Layout, first: U32, last: U32, b: seq<Byte>, s: Shard)
    requires LayoutOk(engine, l) && first <= last < l.nLayers
    requires s.layout == l && s.first == first && s.last == last
    ensures DecodeShardBody(engine, l, first, last, b) == Some(s) <==>
            ShardOk(engine, s) && b == PutWords(s.comps) + (PutWords(s.indices) + s.tensors)
  {
    hide TakeWords, PutWords, AllBelow, RawLiveValid, Sum;
    var n: nat := last - first + 1;
    var t1 := PutWords(s.indices) + s.tensors;
    TakeWordsInverse(b, n, s.comps, t1);
    TakeWordsInverse(t1, n, s.indices, s.tensors);
    TakeWordsLength(b, n);
    if DecodeShardBody(engine, l, first, last, b) == Some(s) {
      var r1 := TakeWords(b, n).rest;
      TakeWordsLength(r1, n);
      TakeWordsInverse(b, n, s.comps, r1);
      TakeWordsInverse(r1, n, s.indices, s.tensors);
    }
  }

  /** Parsing a layer payload undoes writing it, and accepts nothing that was not written so. */
  lemma ShardInverse(engine: Engine, b: seq<Byte>, first: U32, last: U32, s: Shard)
    ensures DecodeShard(engine, b, first, last) == Some(s) <==>
            ShardOk(engine, s) && s.first == first && s.last == last && b == EncodeShard(s)
  {
    hide TakeWords, PutWords, DecodeShardBody, LayoutOk;
    var body := PutWords(s.comps) + (PutWords(s.indices) + s.tensors);
    var h := LayerHeader(s.layout, s.first, s.last);
    TakeWordsInverse(b, LAYER_FIELDS, h, body);
    if DecodeShard(engine, b, first, last) == Some(s) {
      var g, rest := TakeWords(b, LAYER_FIELDS).value, TakeWords(b, LAYER_FIELDS).rest;
      TakeWordsLength(b, LAYER_FIELDS);
      var l := LayerLayout(g, engine.vocab);
      LayersKnown(engine, l);
      ShardBodyKeeps(engine, l, first, last, rest);
      assert g == h;
      TakeWordsInverse(b, LAYER_FIELDS, h, rest);
      ShardBodyInverse(engine, l, first, last, rest, s);
    }
    if ShardOk(engine, s) && s.first == first && s.last == last && b == EncodeShard(s) {
      LayersKnown(engine, s.layout);
      assert LayerLayout(h, engine.vocab) == s.layout;
      ShardBodyInverse(engine, s.layout, first, last, body, s);
    }
  }

  lemma LayersKnown(engine: Engine, l: Layout)
    requires LayoutOk(engine, l)
    ensures l.nLayers == |engine.ratios| && l.vocab == engine.vocab
  {
  }

  lemma ShardBodyKeeps(engine: Engine, l: Layout, first: U32, last: U32, b: seq<Byte>)
    requires LayoutOk(engine, l) && first <= last < l.nLayers
    ensures var r := DecodeShardBody(engine, l, first, last, b);
            r.Some? ==> r.value.layout == l && r.value.first == first && r.value.last == last
  {
    hide TakeWords, AllBelow, RawLiveValid, Sum;
  }

  // ------------------------------------------------------------------------------
  // Where everything stands
  // ------------------------------------------------------------------------------

  /** Numbers of a file, four bytes each, from byte `p` on. */
  ghost predicate WordsAt(b: seq<Byte>, p: nat, ws: seq<U32>) {
    p + 4 * |ws| <= |b| && forall k | 0 <= k < |ws| :: LittleAt(b, p + 4 * k) == ws[k]
  }

  lemma RunIsAt(front: seq<Byte>, ws: seq<U32>, rest: seq<Byte>)
    ensures WordsAt(front + (PutWords(ws) + rest), |front|, ws)
  {
    hide LittleAt, PutWords;
    forall k | 0 <= k < |ws| ensures LittleAt(front + (PutWords(ws) + rest), |front| + 4 * k) == ws[k] {
      WordStandsAt(front, ws, rest, k);
    }
  }

  /** A session file: its name, eleven numbers and the version, then tokens, logits, the two row
      counts of every layer, and the tensors. */
  lemma SessionFileIs(s: Snapshot)
    ensures var b, l := EncodeSession(s), s.layout;
            var logitsAt := 52 + 4 * |s.tokens|;
            var compsAt := logitsAt + |s.logits|;
            var indicesAt := compsAt + 4 * |s.comps|;
            && 52 <= |b| && b[..4] == Ascii("DSV4") && LittleAt(b, 4) == 2
            && LittleAt(b, 8) == l.ctx && LittleAt(b, 12) == l.prefillCap && LittleAt(b, 16) == l.rawCap
            && LittleAt(b, 20) == l.rawWindow && LittleAt(b, 24) == l.compCap && LittleAt(b, 28) == l.tokenCount
            && LittleAt(b, 32) == l.nLayers && LittleAt(b, 36) == l.headDim && LittleAt(b, 40) == l.indexerHeadDim
            && LittleAt(b, 44) == l.vocab && LittleAt(b, 48) == l.rawLive
            && WordsAt(b, 52, s.tokens) && compsAt <= |b| && b[logitsAt..compsAt] == s.logits
            && WordsAt(b, compsAt, s.comps) && WordsAt(b, indicesAt, s.indices)
            && b[indicesAt + 4 * |s.indices|..] == Concat(s.tensors)
  {
    hide LittleAt, PutWords, Concat;
    var b, h := EncodeSession(s), SessionHeader(s.layout);
    var t4 := Concat(s.tensors);
    var t3 := PutWords(s.indices) + t4;
    var t2 := PutWords(s.comps) + t3;
    var t1 := PutWords(s.tokens) + (s.logits + t2);
    var head := PutWords(h);
    assert b == [] + (head + t1);
    RunIsAt([], h, t1);
    SessionFields(b, s.layout);
    RunIsAt(head, s.tokens, s.logits + t2);
    var front := head + PutWords(s.tokens) + s.logits;
    assert b == front + t2 && b == front + PutWords(s.comps) + t3;
    RunIsAt(front, s.comps, t3);
    RunIsAt(front + PutWords(s.comps), s.indices, t4);
    MagicIs(b, SESSION_MAGIC);
  }

  lemma SessionFields(b: seq<Byte>, l: Layout)
    requires WordsAt(b, 0, SessionHeader(l))
    ensures 52 <= |b| && LittleAt(b, 0) == SESSION_MAGIC && LittleAt(b, 4) == 2
    ensures LittleAt(b, 8) == l.ctx && LittleAt(b, 12) == l.prefillCap && LittleAt(b, 16) == l.rawCap
    ensures LittleAt(b, 20) == l.rawWindow && LittleAt(b, 24) == l.compCap && LittleAt(b, 28) == l.tokenCount
    ensures LittleAt(b, 32) == l.nLayers && LittleAt(b, 36) == l.headDim && LittleAt(b, 40) == l.indexerHeadDim
    ensures LittleAt(b, 44) == l.vocab && LittleAt(b, 48) == l.rawLive
  {
    hide LittleAt;
    var h := SessionHeader(l);
    assert h[0] == SESSION_MAGIC && h[1] == 2 && h[2] == l.ctx && h[3] == l.prefillCap && h[4] == l.rawCap;
    assert h[5] == l.rawWindow && h[6] == l.compCap && h[7] == l.tokenCount && h[8] == l.nLayers;
    assert h[9] == l.headDim && h[10] == l.indexerHeadDim && h[11] == l.vocab && h[12] == l.rawLive;
  }

  /** The first number of a file is its name. */
  lemma MagicIs(b: seq<Byte>, magic: U32)
    requires 4 <= |b| && LittleAt(b, 0) == magic
    ensures magic == SESSION_MAGIC ==> b[..4] == Ascii("DSV4")
    ensures magic == LAYER_MAGIC ==> b[..4] == Ascii("DSVL")
  {
    BytesOfWord(b[3], b[2], b[1], b[0]);
    BytesOfWord(0x34, 0x56, 0x53, 0x44);
    BytesOfWord(0x4c, 0x56, 0x53, 0x44);
    assert Ascii("DSV4") == [0x44, 0x53, 0x56, 0x34] && Ascii("DSVL") == [0x44, 0x53, 0x56, 0x4c];
  }

  /** A layer payload: its name, twelve numbers and the version, then the two row counts of its
      layers, and their tensors. */
  lemma ShardFileIs(s: Shard)
    ensures var b, l := EncodeShard(s), s.layout;
            var indicesAt := 56 + 4 * |s.comps|;
            && 56 <= |b| && b[..4] == Ascii("DSVL") && LittleAt(b, 4) == 1
            && LittleAt(b, 8) == l.ctx && LittleAt(b, 12) == l.prefillCap && LittleAt(b, 16) == l.rawCap
            && LittleAt(b, 20) == l.rawWindow && LittleAt(b, 24) == l.compCap && LittleAt(b, 28) == l.tokenCount
            && LittleAt(b, 32) == l.nLayers && LittleAt(b, 36) == l.headDim && LittleAt(b, 40) == l.indexerHeadDim
            && LittleAt(b, 44) == s.first && LittleAt(b, 48) == s.last && LittleAt(b, 52) == l.rawLive
            && WordsAt(b, 56, s.comps) && WordsAt(b, indicesAt, s.indices)
            && b[indicesAt + 4 * |s.indices|..] == s.tensors
  {
    hide LittleAt, PutWords;
    var b, h := EncodeShard(s), LayerHeader(s.layout, s.first, s.last);
    var t2 := PutWords(s.indices) + s.tensors;
    var t1 := PutWords(s.comps) + t2;
    var head := PutWords(h);
    assert b == [] + (head + t1);
    RunIsAt([], h, t1);
    ShardFields(b, s);
    RunIsAt(head, s.comps, t2);
    assert b == head + PutWords(s.comps) + t2;
    RunIsAt(head + PutWords(s.comps), s.indices, s.tensors);
    MagicIs(b, LAYER_MAGIC);
  }

  lemma ShardFields(b: seq<Byte>, s: Shard)
    requires WordsAt(b, 0, LayerHeader(s.layout, s.first, s.last))
    ensures var l := s.layout;
            && 56 <= |b| && LittleAt(b, 0) == LAYER_MAGIC && LittleAt(b, 4) == 1
            && LittleAt(b, 8) == l.ctx && LittleAt(b, 12) == l.prefillCap && LittleAt(b, 16) == l.rawCap
            && LittleAt(b, 20) == l.rawWindow && LittleAt(b, 24) == l.compCap && LittleAt(b, 28) == l.tokenCount
            && LittleAt(b, 32) == l.nLayers && LittleAt(b, 36) == l.headDim && LittleAt(b, 40) == l.indexerHeadDim
            && LittleAt(b, 44) == s.first && LittleAt(b, 48) == s.last && LittleAt(b, 52) == l.rawLive
  {
    hide LittleAt;
    var h := LayerHeader(s.layout, s.first, s.last);
    var l := s.layout;
    assert h[0] == LAYER_MAGIC && h[1] == 1 && h[2] == l.ctx && h[3] == l.prefillCap && h[4] == l.rawCap;
    assert h[5] == l.rawWindow && h[6] == l.compCap && h[7] == l.tokenCount && h[8] == l.nLayers;
    assert h[9] == l.headDim && h[10] == l.indexerHeadDim && h[11] == s.first && h[12] == s.last && h[13] == l.rawLive;
  }
}
