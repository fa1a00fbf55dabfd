/** When a saved session and a layer payload are read, told from the numbers in the file
    (ds4_dist_session_load_payload and dist_kv_parse_layer_payload in ds4_distributed.c). */
module KvReading {
  import opened Wrappers
  import opened Bytes
  import opened KvFormat
  import opened KvCodec
  import opened KvNode

  // ------------------------------------------------------------------------------
  // What the files must say
  // ------------------------------------------------------------------------------

  /** The rows kept raw are those of the window, or the whole timeline while it is shorter. */
  predicate RawRowsAgree(count: nat, window: nat, cap: nat, live: nat) {
    && 1 <= window && 1 <= cap && live <= cap
    && (if count < window then live == count else live == window)
  }

  /** The bytes of the tensors of `n` layers from `first` on, whose row counts stand at `p`,
      first the compressed rows of every layer and then its indexer rows. */
  function TensorBytes(engine: Engine, l: Layout, b: seq<Byte>, first: nat, p: nat, n: nat): nat
    requires p + 8 * n <= |b| && first + n <= |engine.ratios|
  {
    Sum(Sizes(engine, l, first, WordsFrom(b, p, n), WordsFrom(b, p + 4 * n, n)))
  }

  ghost predicate CountsBelow(b: seq<Byte>, p: nat, n: nat, bound: nat)
    requires p + 4 * n <= |b|
  {
    forall i | 0 <= i < n :: LittleAt(b, p + 4 * i) < bound
  }

  ghost predicate SessionReadable(engine: Engine, ctx: U32, b: seq<Byte>) {
    && 52 <= |b| && b[..4] == Ascii("DSV4") && LittleAt(b, 4) == 2
    && LittleAt(b, 32) == |engine.ratios| && LittleAt(b, 44) == engine.vocab
    && LittleAt(b, 8) <= ctx && LittleAt(b, 28) < ctx
    && RawRowsAgree(LittleAt(b, 28), LittleAt(b, 20), LittleAt(b, 16), LittleAt(b, 48))
    && var layers, tokens := |engine.ratios|, LittleAt(b, 28);
       var p := 52 + 4 * tokens + 4 * engine.vocab;
    && p + 8 * layers <= |b|
    && CountsBelow(b, 52, tokens, engine.vocab) && CountsBelow(b, 52, tokens, 0x8000_0000)
    && CountsBelow(b, p, 2 * layers, LittleAt(b, 24) + 1)
    && |b| == p + 8 * layers + TensorBytes(engine, SessionLayout(WordsFrom(b, 0, 13)), b, 0, p, layers)
  }

  ghost predicate ShardReadable(engine: Engine, b: seq<Byte>, first: U32, last: U32) {
    && 56 <= |b| && b[..4] == Ascii("DSVL") && LittleAt(b, 4) == 1
    && LittleAt(b, 32) == |engine.ratios| && LittleAt(b, 44) == first && LittleAt(b, 48) == last
    && first <= last < |engine.ratios|
    && RawRowsAgree(LittleAt(b, 28), LittleAt(b, 20), LittleAt(b, 16), LittleAt(b, 52))
    && var n := last - first + 1;
    && 56 + 8 * n <= |b|
    && CountsBelow(b, 56, 2 * n, LittleAt(b, 24) + 1)
    && |b| == 56 + 8 * n + TensorBytes(engine, LayerLayout(WordsFrom(b, 0, 14), engine.vocab), b, first, 56, n)
  }

  // ------------------------------------------------------------------------------
  // Steps of the readers
  // ------------------------------------------------------------------------------

  lemma Name(b: seq<Byte>)
    requires 4 <= |b|
    ensures LittleAt(b, 0) == SESSION_MAGIC <==> b[..4] == Ascii("DSV4")
    ensures LittleAt(b, 0) == LAYER_MAGIC <==> b[..4] == Ascii("DSVL")
  {
    if LittleAt(b, 0) == SESSION_MAGIC || LittleAt(b, 0) == LAYER_MAGIC {
      MagicIs(b, LittleAt(b, 0));
    }
    assert b[..4][0] == b[0] && b[..4][1] == b[1] && b[..4][2] == b[2] && b[..4][3] == b[3];
    assert Ascii("DSV4") == [0x44, 0x53, 0x56, 0x34] && Ascii("DSVL") == [0x44, 0x53, 0x56, 0x4c];
  }

  lemma RawRows(l: Layout)
    ensures RawLiveValid(l) <==> RawRowsAgree(l.tokenCount, l.rawWindow, l.rawCap, l.rawLive)
  {
  }

  lemma {:induction false} PartsFit(b: seq<Byte>, sizes: seq<nat>)
    ensures TakeParts(b, sizes).Got? <==> Sum(sizes) <= |b|
    ensures TakeParts(b, sizes).Got? ==> |TakeParts(b, sizes).rest| == |b| - Sum(sizes)
    decreases sizes
  {
    if sizes != [] && sizes[0] <= |b| {
      PartsFit(b[sizes[0]..], sizes[1..]);
    }
  }

  lemma BelowIs(b: seq<Byte>, p: nat, n: nat, bound: nat)
    requires p + 4 * n <= |b|
    ensures AllBelow(WordsFrom(b, p, n), bound) <==> CountsBelow(b, p, n, bound)
  {
    hide LittleAt;
    var ws := WordsFrom(b, p, n);
    if AllBelow(ws, bound) {
      forall i | 0 <= i < n ensures LittleAt(b, p + 4 * i) < bound {
        assert ws[i] in ws;
      }
    }
    if CountsBelow(b, p, n, bound) {
      forall w | w in ws ensures w < bound {
        var i :| 0 <= i < n && ws[i] == w;
      }
    }
  }

  lemma BothBelow(b: seq<Byte>, p: nat, n: nat, bound: nat)
    requires p + 8 * n <= |b|
    ensures CountsBelow(b, p, 2 * n, bound) <==> CountsBelow(b, p, n, bound) && CountsBelow(b, p + 4 * n, n, bound)
  {
    hide LittleAt;
    if CountsBelow(b, p, 2 * n, bound) {
      forall i | 0 <= i < n ensures LittleAt(b, p + 4 * n + 4 * i) < bound {
        assert LittleAt(b, p + 4 * (n + i)) < bound;
      }
    }
    if CountsBelow(b, p, n, bound) && CountsBelow(b, p + 4 * n, n, bound) {
      forall i | 0 <= i < 2 * n ensures LittleAt(b, p + 4 * i) < bound {
        assert n <= i ==> LittleAt(b, p + 4 * n + 4 * (i - n)) < bound;
      }
    }
  }

  lemma LayersAreRead(engine: Engine, l: Layout, tokens: seq<U32>, logits: seq<Byte>, b: seq<Byte>, p: nat)
    requires LayoutOk(engine, l) && p <= |b|
    ensures DecodeLayers(engine, l, tokens, logits, b[p..]).Some? <==>
            && p + 8 * l.nLayers <= |b| && CountsBelow(b, p, 2 * l.nLayers, l.compCap + 1)
            && |b| == p + 8 * l.nLayers + TensorBytes(engine, l, b, 0, p, l.nLayers)
  {
    hide TakeWords, TakeParts, AllBelow, RawLiveValid, CountsBelow, WordsFrom, Sum, Sizes;
    var n: nat := l.nLayers;
    TakeWordsAt(b, p, n);
    if p + 4 * n <= |b| {
      TakeWordsAt(b, p + 4 * n, n);
      BelowIs(b, p, n, l.compCap + 1);
      if p + 8 * n <= |b| {
        BelowIs(b, p + 4 * n, n, l.compCap + 1);
        BothBelow(b, p, n, l.compCap + 1);
        PartsFit(b[p + 8 * n..], Sizes(engine, l, 0, WordsFrom(b, p, n), WordsFrom(b, p + 4 * n, n)));
      }
    }
  }

  lemma BodyIsRead(engine: Engine, l: Layout, b: seq<Byte>)
    requires LayoutOk(engine, l) && 52 <= |b|
    ensures var p := 52 + 4 * l.tokenCount + 4 * engine.vocab;
            DecodeBody(engine, l, b[52..]).Some? <==>
            && p + 8 * l.nLayers <= |b|
            && CountsBelow(b, 52, l.tokenCount, engine.vocab) && CountsBelow(b, 52, l.tokenCount, 0x8000_0000)
            && CountsBelow(b, p, 2 * l.nLayers, l.compCap + 1)
            && |b| == p + 8 * l.nLayers + TensorBytes(engine, l, b, 0, p, l.nLayers)
  {
    hide TakeWords, AllBelow, RawLiveValid, CountsBelow, WordsFrom, DecodeLayers, TensorBytes;
    var n: nat, p := l.tokenCount, 52 + 4 * l.tokenCount + 4 * engine.vocab;
    TakeWordsAt(b, 52, n);
    if 52 + 4 * n <= |b| {
      var tokens := WordsFrom(b, 52, n);
      BelowIs(b, 52, n, TokenBound(engine));
      BoundIs(engine, b, n);
      if p <= |b| {
        assert b[52 + 4 * n..][4 * l.vocab..] == b[p..];
        LayersAreRead(engine, l, tokens, b[52 + 4 * n..][..4 * l.vocab], b, p);
      }
    }
  }

  lemma BoundIs(engine: Engine, b: seq<Byte>, n: nat)
    requires 52 + 4 * n <= |b|
    ensures CountsBelow(b, 52, n, TokenBound(engine)) <==>
            CountsBelow(b, 52, n, engine.vocab) && CountsBelow(b, 52, n, 0x8000_0000)
  {
    hide LittleAt;
  }

  // ------------------------------------------------------------------------------
  // Which files are read
  // ------------------------------------------------------------------------------

  /** The loader reads exactly the files whose numbers agree with the model, with one another
      and with the length of the file, and whose context has room. */
  lemma SessionIsRead(engine: Engine, ctx: U32, b: seq<Byte>)
    requires 0 < |engine.ratios|
    ensures DecodeSession(engine, ctx, b).Some? <==> SessionReadable(engine, ctx, b)
  {
    hide TakeWords, LittleAt, RawLiveValid, RawRowsAgree, DecodeBody, CountsBelow, TensorBytes;
    TakeWordsAt(b, 0, 13);
    assert b[0..] == b;
    if 52 <= |b| {
      var h := WordsFrom(b, 0, 13);
      var l := SessionLayout(h);
      Name(b);
      RawRows(l);
      if Loadable(engine, ctx, l) {
        BodyIsRead(engine, l, b);
      }
    }
  }

  /** A layer payload is read exactly when it names the layers asked for, and its numbers agree
      with the model, with one another and with its length. */
  lemma ShardIsRead(engine: Engine, b: seq<Byte>, first: U32, last: U32)
    ensures DecodeShard(engine, b, first, last).Some? <==> ShardReadable(engine, b, first, last)
  {
    hide TakeWords, LittleAt, RawLiveValid, RawRowsAgree, DecodeShardBody, CountsBelow, TensorBytes;
    TakeWordsAt(b, 0, 14);
    assert b[0..] == b;
    if 56 <= |b| {
      var h := WordsFrom(b, 0, 14);
      var l := LayerLayout(h, engine.vocab);
      Name(b);
      RawRows(l);
      if LayoutOk(engine, l) && first <= last < l.nLayers {
        ShardBodyIsRead(engine, l, first, last, b);
      }
    }
  }

  lemma ShardBodyIsRead(engine: Engine, l: Layout, first: U32, last: U32, b: seq<Byte>)
    requires LayoutOk(engine, l) && first <= last < l.nLayers && 56 <= |b|
    ensures var n := last - first + 1;
            DecodeShardBody(engine, l, first, last, b[56..]).Some? <==>
            && 56 + 8 * n <= |b| && CountsBelow(b, 56, 2 * n, l.compCap + 1)
            && |b| == 56 + 8 * n + TensorBytes(engine, l, b, first, 56, n)
  {
    hide TakeWords, AllBelow, RawLiveValid, CountsBelow, WordsFrom, Sum, Sizes;
    var n: nat := last - first + 1;
    TakeWordsAt(b, 56, n);
    if 56 + 4 * n <= |b| {
      TakeWordsAt(b, 56 + 4 * n, n);
      BelowIs(b, 56, n, l.compCap + 1);
      if 56 + 8 * n <= |b| {
        BelowIs(b, 56 + 4 * n, n, l.compCap + 1);
        BothBelow(b, 56, n, l.compCap + 1);
      }
    }
  }

  // ------------------------------------------------------------------------------
  // Which payloads a node takes
  // ------------------------------------------------------------------------------

  ghost predicate CapsHold(engine: Engine, ctx: U32, first: U32, b: seq<Byte>, p: nat, n: nat)
    requires p + 4 * n <= |b| && first + n <= |engine.ratios|
  {
    forall i | 0 <= i < n :: LittleAt(b, p + 4 * i) <= LayerCap(engine.ratios[first + i], ctx)
  }

  lemma ShardNumbers(engine: Engine, b: seq<Byte>, first: U32, last: U32)
    requires DecodeShard(engine, b, first, last).Some?
    ensures var s, n := DecodeShard(engine, b, first, last).value, last - first + 1;
            && first <= last < |engine.ratios| && 56 + 8 * n <= |b|
            && s.layout == LayerLayout(WordsFrom(b, 0, 14), engine.vocab) && s.first == first
            && s.comps == WordsFrom(b, 56, n) && s.indices == WordsFrom(b, 56 + 4 * n, n)
  {
    hide TakeWords, LittleAt, RawLiveValid, AllBelow, Sum, Sizes, WordsFrom;
    TakeWordsAt(b, 0, 14);
    assert b[0..] == b;
    var n: nat := last - first + 1;
    TakeWordsAt(b, 56, n);
    TakeWordsAt(b, 56 + 4 * n, n);
  }

  lemma CapsAre(engine: Engine, ctx: U32, first: U32, b: seq<Byte>, p: nat, n: nat)
    requires p + 4 * n <= |b| && first + n <= |engine.ratios|
    ensures RowsFit(engine, ctx, first, WordsFrom(b, p, n)) <==> CapsHold(engine, ctx, first, b, p, n)
  {
    hide LittleAt, LayerCap;
    var ws := WordsFrom(b, p, n);
    if RowsFit(engine, ctx, first, ws) {
      forall i | 0 <= i < n ensures LittleAt(b, p + 4 * i) <= LayerCap(engine.ratios[first + i], ctx) {
        assert ws[i] == LittleAt(b, p + 4 * i);
      }
    }
  }

  /** A node takes exactly the payloads that can be read and were written for the tokens it was
      told, for its own head sizes and window, by a node with no larger context, and whose rows
      it has room for. */
  lemma NodeTakes(engine: Engine, rt: Runtime, b: seq<Byte>, count: nat, first: U32, last: U32)
    requires 0 < rt.ctx < CTX_LIMIT
    ensures Take(engine, rt, b, count, first, last).Some? <==>
            && ShardReadable(engine, b, first, last)
            && LittleAt(b, 8) <= rt.ctx && LittleAt(b, 28) == count && count < rt.ctx
            && LittleAt(b, 36) == engine.headDim && LittleAt(b, 40) == engine.indexerHeadDim
            && LittleAt(b, 20) == (if engine.window == 0 then 1 else if engine.window < rt.ctx then engine.window else rt.ctx)
            && LittleAt(b, 52) <= rt.rawCap && LittleAt(b, 24) <= CompCap(engine, rt.ctx)
            && var n := last - first + 1;
               CapsHold(engine, rt.ctx, first, b, 56, n) && CapsHold(engine, rt.ctx, first, b, 56 + 4 * n, n)
  {
    hide DecodeShard, LittleAt, CompCap, RowsFit, CapsHold, RawRowsAgree, CountsBelow, TensorBytes;
    ShardIsRead(engine, b, first, last);
    if DecodeShard(engine, b, first, last).Some? {
      ShardNumbers(engine, b, first, last);
      var n: nat := last - first + 1;
      CapsAre(engine, rt.ctx, first, b, 56, n);
      CapsAre(engine, rt.ctx, first, b, 56 + 4 * n, n);
    }
  }
}
