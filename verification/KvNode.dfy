/** What one node keeps of a session, and how it writes and takes its own layers
    (ds4_session_save_layer_payload, ds4_session_load_layer_payload and
    metal_graph_alloc_raw_cap in ds4.c).  Unlike the coordinator, a node stamps what it writes
    with the sizes of its own runtime. */
module KvNode {
  import opened Wrappers
  import opened Bytes
  import opened KvFormat
  import opened KvCodec

  // ------------------------------------------------------------------------------
  // Runtimes
  // ------------------------------------------------------------------------------

  /** What a node is started with; everything else in its headers follows from this and the model. */
  datatype Runtime = Runtime(ctx: U32, prefillCap: U32, rawCap: U32)

  function RawWindow(engine: Engine, ctx: U32): U32 {
    if Min(engine.window, ctx) == 0 then 1 else Min(engine.window, ctx)
  }

  /** The least compression ratio of the compressed layers, or 0 when there are none. */
  function MinRatio(ratios: seq<U32>): U32 {
    if ratios == [] then 0
    else
      var rest := MinRatio(ratios[1..]);
      if ratios[0] == 0 then rest else if rest == 0 then ratios[0] else Min(ratios[0], rest)
  }

  const CTX_LIMIT: nat := 0x8000_0000

  function CompCap(engine: Engine, ctx: U32): U32
    requires 0 < ctx < CTX_LIMIT
  {
    var m := MinRatio(engine.ratios);
    Shrinks(ctx, if m == 0 then ctx else m);
    ctx / (if m == 0 then ctx else m) + 2
  }

  lemma Quotient(n: nat, m: nat) returns (q: nat)
    requires 0 < m
    ensures q == n / m && m * q <= n < m * q + m
  {
    q := n / m;
  }

  lemma Shrinks(n: nat, m: nat)
    requires 0 < m
    ensures n / m <= n
  {
    var q := Quotient(n, m);
    Grows(q, 1, m);
  }

  function LayerCap(ratio: U32, ctx: U32): nat {
    if ratio == 0 then 0 else ctx / ratio + 2
  }

  lemma {:induction false} LeastRatio(ratios: seq<U32>)
    ensures MinRatio(ratios) == 0 <==> forall r | r in ratios :: r == 0
    ensures MinRatio(ratios) != 0 ==> MinRatio(ratios) in ratios && forall r | r in ratios && r != 0 :: MinRatio(ratios) <= r
  {
    if ratios != [] {
      LeastRatio(ratios[1..]);
      assert ratios[0] in ratios && forall r | r in ratios[1..] :: r in ratios;
      assert forall r | r in ratios :: r == ratios[0] || r in ratios[1..];
    }
  }

  /** The row bound in a header is the largest of the layers' own bounds. */
  lemma CompCapIsLargest(engine: Engine, ctx: U32)
    requires 0 < ctx < CTX_LIMIT
    ensures forall r | r in engine.ratios :: LayerCap(r, ctx) <= CompCap(engine, ctx)
    ensures if forall r | r in engine.ratios :: r == 0 then CompCap(engine, ctx) == 3
            else exists r | r in engine.ratios :: r != 0 && CompCap(engine, ctx) == ctx / r + 2
  {
    hide MinRatio;
    LeastRatio(engine.ratios);
    var m := MinRatio(engine.ratios);
    if m == 0 {
      assert ctx / ctx == 1;
    } else {
      assert m in engine.ratios && CompCap(engine, ctx) == ctx / m + 2;
      forall r | r in engine.ratios ensures LayerCap(r, ctx) <= CompCap(engine, ctx) {
        if r != 0 {
          LargerDivisor(ctx, m, r);
        }
      }
    }
  }

  lemma LargerDivisor(n: nat, a: nat, b: nat)
    requires 0 < a <= b
    ensures n / b <= n / a
  {
    var p := Quotient(n, a);
    var q := Quotient(n, b);
    if p < q {
      Grows(a, p + 1, q);
      Grows(q, a, b);
    }
  }

  ghost predicate RuntimeOk(engine: Engine, rt: Runtime) {
    engine.Valid() && 0 < rt.ctx < CTX_LIMIT && RawWindow(engine, rt.ctx) <= rt.rawCap
  }

  function NodeLayout(engine: Engine, rt: Runtime, count: U32): Layout
    requires RuntimeOk(engine, rt)
  {
    Layout(rt.ctx, rt.prefillCap, rt.rawCap, RawWindow(engine, rt.ctx), CompCap(engine, rt.ctx), count,
           |engine.ratios|, engine.headDim, engine.indexerHeadDim, engine.vocab,
           Min(Min(RawWindow(engine, rt.ctx), rt.rawCap), count))
  }

  // ------------------------------------------------------------------------------
  // Writing and taking
  // ------------------------------------------------------------------------------

  /** The layers a node holds: row counts, and the tensors in the order of the timeline. */
  datatype Cache = Cache(count: U32, first: U32, last: U32, comps: seq<U32>, indices: seq<U32>, tensors: seq<Byte>)

  function Written(engine: Engine, rt: Runtime, c: Cache): Shard
    requires RuntimeOk(engine, rt)
  {
    Shard(NodeLayout(engine, rt, c.count), c.first, c.last, c.comps, c.indices, c.tensors)
  }

  predicate RowsFit(engine: Engine, ctx: U32, first: U32, counts: seq<U32>) {
    forall i | 0 <= i < |counts| :: first + i < |engine.ratios| && counts[i] <= LayerCap(engine.ratios[first + i], ctx)
  }

  /** A cache that a node with this runtime can have. */
  ghost predicate NodeOk(engine: Engine, rt: Runtime, c: Cache) {
    && RuntimeOk(engine, rt)
    && ShardOk(engine, Written(engine, rt, c))
    && RowsFit(engine, rt.ctx, c.first, c.comps) && RowsFit(engine, rt.ctx, c.first, c.indices)
  }

  /** Which layers a node takes for a timeline of `count` tokens. */
  predicate Fits(engine: Engine, rt: Runtime, p: Shard, count: nat)
    requires 0 < rt.ctx < CTX_LIMIT
  {
    && p.layout.ctx <= rt.ctx && p.layout.tokenCount == count < rt.ctx
    && p.layout.headDim == engine.headDim && p.layout.indexerHeadDim == engine.indexerHeadDim
    && p.layout.rawWindow == RawWindow(engine, rt.ctx)
    && p.layout.rawLive <= rt.rawCap
    && p.layout.compCap <= CompCap(engine, rt.ctx)
    && RowsFit(engine, rt.ctx, p.first, p.comps) && RowsFit(engine, rt.ctx, p.first, p.indices)
  }

  function Kept(p: Shard): Cache {
    Cache(p.layout.tokenCount, p.first, p.last, p.comps, p.indices, p.tensors)
  }

  function Take(engine: Engine, rt: Runtime, b: seq<Byte>, count: nat, first: U32, last: U32): Option<Cache>
    requires 0 < rt.ctx < CTX_LIMIT
  {
    match DecodeShard(engine, b, first, last)
    case None => None
    case Some(p) => if Fits(engine, rt, p, count) then Some(Kept(p)) else None
  }

  lemma TakeOfShard(engine: Engine, rt: Runtime, p: Shard, count: nat)
    requires ShardOk(engine, p) && 0 < rt.ctx < CTX_LIMIT
    ensures Take(engine, rt, EncodeShard(p), count, p.first, p.last) == if Fits(engine, rt, p, count) then Some(Kept(p)) else None
  {
    hide DecodeShard, EncodeShard, ShardOk, Fits;
    ShardInverse(engine, EncodeShard(p), p.first, p.last, p);
  }

  /** What a node takes it can hold, and write again under its own runtime. */
  lemma TakenIsOk(engine: Engine, rt: Runtime, p: Shard, count: nat)
    requires RuntimeOk(engine, rt) && ShardOk(engine, p) && Fits(engine, rt, p, count)
    ensures NodeOk(engine, rt, Kept(p))
  {
    hide CompCap, RawWindow, Sum;
    var c := Kept(p);
    var l := NodeLayout(engine, rt, c.count);
    SizesAgree(engine, p.layout, l, p.first, p.comps, p.indices);
    CountsFit(p.layout, l, p.comps, p.last - p.first + 1);
    CountsFit(p.layout, l, p.indices, p.last - p.first + 1);
  }

  lemma CountsFit(a: Layout, b: Layout, counts: seq<U32>, n: nat)
    requires CountsOk(a, counts, n) && a.compCap <= b.compCap
    ensures CountsOk(b, counts, n)
  {
  }

  lemma SizesAgree(engine: Engine, a: Layout, b: Layout, first: nat, comps: seq<U32>, indices: seq<U32>)
    requires a.rawLive == b.rawLive && a.headDim == b.headDim && a.indexerHeadDim == b.indexerHeadDim
    requires |comps| == |indices| && first + |comps| <= |engine.ratios|
    ensures Sizes(engine, a, first, comps, indices) == Sizes(engine, b, first, comps, indices)
  {
    hide ExactRows, ExactState;
  }

  /** Two nodes write the same header exactly when they run with the same sizes. */
  lemma HeaderTellsRuntime(engine: Engine, a: Runtime, b: Runtime, count: U32)
    requires RuntimeOk(engine, a) && RuntimeOk(engine, b)
    ensures NodeLayout(engine, a, count) == NodeLayout(engine, b, count) <==> a == b
  {
    hide CompCap, RawWindow;
  }

  lemma Monotone(a: nat, b: nat, m: nat)
    requires a <= b && 0 < m
    ensures a / m <= b / m
  {
    var p := Quotient(a, m);
    var q := Quotient(b, m);
    if q < p {
      Grows(m, q + 1, p);
    }
  }

  lemma CapsGrow(engine: Engine, a: U32, b: U32, first: U32, counts: seq<U32>)
    requires 0 < a <= b < CTX_LIMIT
    ensures CompCap(engine, a) <= CompCap(engine, b)
    ensures RowsFit(engine, a, first, counts) ==> RowsFit(engine, b, first, counts)
  {
    var m := MinRatio(engine.ratios);
    if m != 0 {
      Monotone(a, b, m);
    } else {
      assert a / a == 1 && b / b == 1;
    }
    if RowsFit(engine, a, first, counts) {
      forall i | 0 <= i < |counts|
        ensures first + i < |engine.ratios| && counts[i] <= LayerCap(engine.ratios[first + i], b)
      {
        RowGrows(engine, a, b, first, counts, i);
      }
    }
  }

  lemma RowGrows(engine: Engine, a: U32, b: U32, first: U32, counts: seq<U32>, i: nat)
    requires a <= b && i < |counts| && RowsFit(engine, a, first, counts)
    ensures first + i < |engine.ratios| && counts[i] <= LayerCap(engine.ratios[first + i], b)
  {
    var n := counts[i];
    assert n <= LayerCap(engine.ratios[first + i], a);
    LayerCapGrows(engine.ratios[first + i], a, b);
  }

  lemma LayerCapGrows(ratio: U32, a: U32, b: U32)
    requires a <= b
    ensures LayerCap(ratio, a) <= LayerCap(ratio, b)
  {
    if ratio != 0 {
      Monotone(a, b, ratio);
    }
  }

  /** Layers written by one node are taken by another exactly when the other has at least the
      context, the same raw window, and room for one more token. */
  lemma FitsNode(engine: Engine, a: Runtime, b: Runtime, c: Cache)
    requires NodeOk(engine, a, c) && RuntimeOk(engine, b)
    ensures Fits(engine, b, Written(engine, a, c), c.count) <==>
            a.ctx <= b.ctx && c.count < b.ctx && RawWindow(engine, a.ctx) == RawWindow(engine, b.ctx)
  {
    hide CompCap, RawWindow, LayerCap, ShardOk;
    if a.ctx <= b.ctx {
      CapsGrow(engine, a.ctx, b.ctx, c.first, c.comps);
      CapsGrow(engine, a.ctx, b.ctx, c.first, c.indices);
    }
  }
}
