/** Merging the layer payloads of a route into one session file, and why the route leaves no
    trace in it (ds4_dist_session_save_payload in ds4_distributed.c). */
module KvTopology {
  import opened Wrappers
  import opened Bytes
  import opened KvFormat
  import opened KvCodec
  import opened KvFile
  import opened KvNode
  import opened KvSnapshot

  // ------------------------------------------------------------------------------
  // Parsing one node's payload
  // ------------------------------------------------------------------------------

  /** Add up the sizes of some layers' tensors in 64 bits. */
  method ExpectedBytes(engine: Engine, l: Layout, first: nat, comps: seq<U32>, indices: seq<U32>) returns (r: Option<nat>)
    requires |comps| == |indices| && first + |comps| <= |engine.ratios|
    ensures var n := Sum(Sizes(engine, l, first, comps, indices));
            r == if n <= U64_MAX then Some(n) else None
  {
    hide LayerSize, LayerBytes, Sum;
    ghost var sizes := Sizes(engine, l, first, comps, indices);
    var expected: nat := 0;
    NothingSummed(sizes);
    for i := 0 to |comps|
      invariant expected <= U64_MAX && expected == Sum(sizes[..i])
    {
      SumStep(sizes, i);
      LayerBytesExact(l, engine.ratios[first + i], comps[i], indices[i]);
      var size := LayerBytes(l, engine.ratios[first + i], comps[i], indices[i]);
      if size.None? {
        return None;
      }
      var total := Add64(expected, size.value);
      if total.None? {
        return None;
      }
      expected := total.value;
    }
    assert sizes[..|comps|] == sizes;
    r := Some(expected);
  }

  method ParseShard(engine: Engine, bytes: seq<Byte>, first: U32, last: U32) returns (r: Option<Shard>)
    requires engine.Valid() && |bytes| <= U64_MAX
    ensures r == DecodeShard(engine, bytes, first, last)
  {
    hide LayerSize, TakeWords, TakeBytes, AllBelow, LayoutOk, Sum, DecodeShardBody;
    var file := new PayloadFile(bytes, |bytes|);
    assert bytes[..|bytes|] == bytes;
    EveryWordIsBelow();
    TakeWordsLength(bytes, LAYER_FIELDS);
    var header := file.ReadWords(LAYER_FIELDS, 0x1_0000_0000);
    if header.None? {
      return None;
    }
    var h := header.value;
    if h[0] != LAYER_MAGIC || h[1] != LAYER_VERSION {
      return None;
    }
    var l := LayerLayout(h, engine.vocab);
    if h[11] != first || h[12] != last || last < first || l.nLayers <= last {
      return None;
    }
    if !LayoutOk(engine, l) {
      return None;
    }
    r := ParseShardBody(file, engine, l, first, last);
  }

  /** The row counts, and then as many bytes of tensors as they call for. */
  method ParseShardBody(file: PayloadFile, engine: Engine, l: Layout, first: U32, last: U32) returns (r: Option<Shard>)
    requires file.Valid() && file.end == |file.data| <= U64_MAX
    requires LayoutOk(engine, l) && first <= last < l.nLayers
    modifies file
    ensures r == DecodeShardBody(engine, l, first, last, old(file.Unread()))
  {
    hide LayerSize, TakeWords, TakeBytes, AllBelow, LayoutOk, Sum;
    LayersKnown(engine, l);
    var n: nat := last - first + 1;
    TakeWordsLength(file.Unread(), n);
    var comps := file.ReadWords(n, l.compCap + 1);
    if comps.None? {
      return None;
    }
    TakeWordsLength(file.Unread(), n);
    var indices := file.ReadWords(n, l.compCap + 1);
    if indices.None? {
      return None;
    }
    var expected := ExpectedBytes(engine, l, first, comps.value, indices.value);
    if expected.None? {
      return None;
    }
    assert file.Unread() == file.data[file.pos..];
    if file.remaining != expected.value {
      return None;
    }
    r := Some(Shard(l, first, last, comps.value, indices.value, file.data[file.pos..]));
  }

  lemma NothingSummed(sizes: seq<nat>)
    ensures Sum(sizes[..0]) == 0
  {
  }

  lemma {:induction false} SumOf(s: seq<nat>, t: seq<nat>)
    ensures Sum(s + t) == Sum(s) + Sum(t)
  {
    if s == [] {
      assert s + t == t;
    } else {
      assert (s + t)[1..] == s[1..] + t;
      SumOf(s[1..], t);
    }
  }

  lemma SumStep(sizes: seq<nat>, i: nat)
    requires i < |sizes|
    ensures Sum(sizes[..i + 1]) == Sum(sizes[..i]) + sizes[i]
    ensures Sum(sizes[..i + 1]) <= Sum(sizes)
  {
    assert sizes[..i + 1] == sizes[..i] + [sizes[i]];
    SumOf(sizes[..i], [sizes[i]]);
    assert [sizes[i]][1..] == [];
    assert sizes == sizes[..i + 1] + sizes[i + 1..];
    SumOf(sizes[..i + 1], sizes[i + 1..]);
  }

  // ------------------------------------------------------------------------------
  // Sessions and the payloads of a route
  // ------------------------------------------------------------------------------

  /** The payloads delivered by the nodes of the route are those of the session `s`. */
  ghost predicate DeliveredFrom(engine: Engine, route: seq<Span>, tokens: seq<U32>, logits: seq<Byte>,
                                delivered: seq<seq<Byte>>, s: Snapshot) {
    && SnapshotOk(engine, s) && s.tokens == tokens && s.logits == logits
    && |delivered| == |route| && ShardsAre(delivered, s, route)
  }

  ghost predicate SomeSession(engine: Engine, route: seq<Span>, tokens: seq<U32>, logits: seq<Byte>, delivered: seq<seq<Byte>>) {
    exists s :: DeliveredFrom(engine, route, tokens, logits, delivered, s)
  }

  /** Saving succeeds exactly when the payloads are the layers of one session, and then writes
      that session in the single-node format. */
  ghost predicate SaveGives(engine: Engine, route: seq<Span>, tokens: seq<U32>, logits: seq<Byte>,
                            delivered: seq<seq<Byte>>, r: Option<seq<Byte>>) {
    && (r.Some? <==> RouteValid(route, |engine.ratios|) && SomeSession(engine, route, tokens, logits, delivered))
    && (forall s | DeliveredFrom(engine, route, tokens, logits, delivered, s) && r.Some? :: r.value == EncodeSession(s))
  }

  /** Payloads that all parse, under one layout for this timeline. */
  ghost predicate Agree(engine: Engine, route: seq<Span>, parsed: seq<Shard>, l: Layout) {
    && |parsed| <= |route|
    && forall k | 0 <= k < |parsed| ::
         ShardOk(engine, parsed[k]) && parsed[k].first == route[k].first && parsed[k].last == route[k].last &&
         parsed[k].layout == l
  }

  /** A session made of the first nodes' layers, still without those of the rest. */
  ghost predicate Assembled(engine: Engine, route: seq<Span>, parsed: seq<Shard>, l: Layout, k: nat,
                            comps: seq<U32>, indices: seq<U32>, tensors: seq<seq<Byte>>)
    requires k <= |parsed| <= |route|
  {
    && CountsOk(l, comps, Covered(route, k)) && CountsOk(l, indices, Covered(route, k)) && Covered(route, k) <= |engine.ratios|
    && Sized(tensors, Sizes(engine, l, 0, comps, indices))
    && forall j | 0 <= j < k ::
         && route[j].first <= route[j].last < Covered(route, k)
         && Cut(comps, route[j]) == parsed[j].comps && Cut(indices, route[j]) == parsed[j].indices
         && Concat(Cut(tensors, route[j])) == parsed[j].tensors
  }

  lemma {:induction false} SplitTotal(b: seq<Byte>, sizes: seq<nat>) returns (parts: seq<seq<Byte>>)
    requires |b| == Sum(sizes)
    ensures Sized(parts, sizes) && Concat(parts) == b
    decreases sizes
  {
    if sizes == [] {
      parts := [];
    } else {
      var rest := SplitTotal(b[sizes[0]..], sizes[1..]);
      parts := [b[..sizes[0]]] + rest;
      assert parts[1..] == rest;
    }
  }

  lemma AppendBelow(s: seq<U32>, t: seq<U32>, bound: nat)
    ensures AllBelow(s + t, bound) <==> AllBelow(s, bound) && AllBelow(t, bound)
  {
    if AllBelow(s + t, bound) {
      assert forall w | w in s :: w in s + t;
      assert forall w | w in t :: w in s + t;
    }
  }

  lemma SizesAppend(engine: Engine, l: Layout, comps: seq<U32>, indices: seq<U32>, c: seq<U32>, i: seq<U32>)
    requires |comps| == |indices| && |c| == |i| && |comps| + |c| <= |engine.ratios|
    ensures Sizes(engine, l, 0, comps + c, indices + i) ==
            Sizes(engine, l, 0, comps, indices) + Sizes(engine, l, |comps|, c, i)
  {
    hide LayerSize;
  }

  lemma CutOfAppend<T>(s: seq<T>, t: seq<T>, span: Span)
    requires span.first <= span.last
    ensures span.last < |s| ==> Cut(s + t, span) == Cut(s, span)
    ensures span.first == |s| && span.last + 1 == |s| + |t| ==> Cut(s + t, span) == t
  {
  }

  lemma AssembleStep(engine: Engine, route: seq<Span>, parsed: seq<Shard>, l: Layout, k: nat,
                     comps: seq<U32>, indices: seq<U32>, tensors: seq<seq<Byte>>) returns (more: seq<seq<Byte>>)
    requires RouteValid(route, |engine.ratios|) && Agree(engine, route, parsed, l) && k < |parsed|
    requires Assembled(engine, route, parsed, l, k, comps, indices, tensors)
    ensures Assembled(engine, route, parsed, l, k + 1, comps + parsed[k].comps, indices + parsed[k].indices, tensors + more)
  {
    hide LayerSize, Sum, AllBelow, LayoutOk, Concat, RouteValid;
    SpanFits(route, |engine.ratios|, k);
    var p := parsed[k];
    more := SplitTotal(p.tensors, Sizes(engine, l, p.first, p.comps, p.indices));
    AppendBelow(comps, p.comps, l.compCap + 1);
    AppendBelow(indices, p.indices, l.compCap + 1);
    SizesAppend(engine, l, comps, indices, p.comps, p.indices);
    SizedAppend(tensors, Sizes(engine, l, 0, comps, indices), more, Sizes(engine, l, p.first, p.comps, p.indices));
    CutsAppend(route, parsed, k, comps, indices, tensors, p.comps, p.indices, more);
  }

  lemma SizedAppend(s: seq<seq<Byte>>, sizes: seq<nat>, t: seq<seq<Byte>>, more: seq<nat>)
    requires Sized(s, sizes) && Sized(t, more)
    ensures Sized(s + t, sizes + more)
  {
  }

  lemma CutsAppend(route: seq<Span>, parsed: seq<Shard>, k: nat, comps: seq<U32>, indices: seq<U32>, tensors: seq<seq<Byte>>,
                   c: seq<U32>, i: seq<U32>, t: seq<seq<Byte>>)
    requires k < |parsed| <= |route| && |comps| == |indices| == |tensors| == route[k].first <= route[k].last
    requires |c| == |i| == |t| == route[k].last - route[k].first + 1
    requires parsed[k].comps == c && parsed[k].indices == i && parsed[k].tensors == Concat(t)
    requires forall j | 0 <= j < k ::
               && route[j].first <= route[j].last < |comps|
               && Cut(comps, route[j]) == parsed[j].comps && Cut(indices, route[j]) == parsed[j].indices
               && Concat(Cut(tensors, route[j])) == parsed[j].tensors
    ensures forall j | 0 <= j <= k ::
               && route[j].first <= route[j].last < |comps + c|
               && Cut(comps + c, route[j]) == parsed[j].comps && Cut(indices + i, route[j]) == parsed[j].indices
               && Concat(Cut(tensors + t, route[j])) == parsed[j].tensors
  {
    hide Concat;
    forall j | 0 <= j <= k
      ensures route[j].first <= route[j].last < |comps + c|
      ensures Cut(comps + c, route[j]) == parsed[j].comps && Cut(indices + i, route[j]) == parsed[j].indices
      ensures Concat(Cut(tensors + t, route[j])) == parsed[j].tensors
    {
      CutOfAppend(comps, c, route[j]);
      CutOfAppend(indices, i, route[j]);
      CutOfAppend(tensors, t, route[j]);
    }
  }

  lemma {:induction false} AssembleAll(engine: Engine, route: seq<Span>, parsed: seq<Shard>, l: Layout, k: nat)
    returns (comps: seq<U32>, indices: seq<U32>, tensors: seq<seq<Byte>>)
    requires RouteValid(route, |engine.ratios|) && Agree(engine, route, parsed, l) && k <= |parsed|
    ensures Assembled(engine, route, parsed, l, k, comps, indices, tensors)
  {
    if k == 0 {
      comps, indices, tensors := [], [], [];
    } else {
      hide RouteValid, Assembled, Agree;
      comps, indices, tensors := AssembleAll(engine, route, parsed, l, k - 1);
      var more := AssembleStep(engine, route, parsed, l, k - 1, comps, indices, tensors);
      comps, indices, tensors := comps + parsed[k - 1].comps, indices + parsed[k - 1].indices, tensors + more;
    }
  }

  /** Payloads that agree are the layers of one session. */
  lemma SessionFromShards(engine: Engine, route: seq<Span>, tokens: seq<U32>, logits: seq<Byte>,
                          delivered: seq<seq<Byte>>, parsed: seq<Shard>, l: Layout)
    requires RouteValid(route, |engine.ratios|) && Agree(engine, route, parsed, l) && |parsed| == |route| == |delivered|
    requires l.tokenCount == |tokens| && |logits| == 4 * engine.vocab
    requires forall k | 0 <= k < |route| :: delivered[k] == EncodeShard(parsed[k])
    ensures SomeSession(engine, route, tokens, logits, delivered)
  {
    hide LayerSize, EncodeShard, AllBelow, Concat, Sum;
    var n := |route|;
    SpanFits(route, |engine.ratios|, n - 1);
    assert ShardOk(engine, parsed[0]);
    var comps, indices, tensors := AssembleAll(engine, route, parsed, l, n);
    var s := Snapshot(l, tokens, logits, comps, indices, tensors);
    assert Covered(route, n) == |engine.ratios|;
    forall k | 0 <= k < n ensures Holds(s, route[k]) && delivered[k] == EncodeShard(ShardOf(s, route[k])) {
      assert parsed[k] == ShardOf(s, route[k]);
    }
    assert DeliveredFrom(engine, route, tokens, logits, delivered, s);
  }

  /** A session's layers parse, and parse as what they are. */
  lemma ShardsFromSession(engine: Engine, route: seq<Span>, tokens: seq<U32>, logits: seq<Byte>,
                          delivered: seq<seq<Byte>>, s: Snapshot, k: nat)
    requires RouteValid(route, |engine.ratios|) && k < |route|
    requires DeliveredFrom(engine, route, tokens, logits, delivered, s)
    ensures Holds(s, route[k])
    ensures DecodeShard(engine, delivered[k], route[k].first, route[k].last) == Some(ShardOf(s, route[k]))
    ensures delivered[k] != []
  {
    hide DecodeShard, SnapshotOk, ShardOk;
    ShardOfIsOk(engine, s, route[k]);
    ShardInverse(engine, delivered[k], route[k].first, route[k].last, ShardOf(s, route[k]));
  }

  /** What the merge has gathered from the first nodes of the route. */
  ghost predicate Gathered(route: seq<Span>, k: nat, s: Snapshot, comps: seq<U32>, indices: seq<U32>, tensors: seq<Byte>)
    requires k <= |route|
  {
    && |s.comps| == |s.indices| == |s.tensors| && Covered(route, k) <= |s.comps|
    && comps == s.comps[..Covered(route, k)] && indices == s.indices[..Covered(route, k)]
    && tensors == Concat(s.tensors[..Covered(route, k)])
  }

  lemma {:induction false} ConcatOf(s: seq<seq<Byte>>, t: seq<seq<Byte>>)
    ensures Concat(s + t) == Concat(s) + Concat(t)
  {
    if s == [] {
      assert s + t == t;
    } else {
      assert (s + t)[1..] == s[1..] + t;
      ConcatOf(s[1..], t);
    }
  }

  lemma GatherStep(engine: Engine, route: seq<Span>, k: nat, s: Snapshot, comps: seq<U32>, indices: seq<U32>, tensors: seq<Byte>)
    requires RouteValid(route, |engine.ratios|) && k < |route| && Holds(s, route[k])
    requires Gathered(route, k, s, comps, indices, tensors)
    ensures var p := ShardOf(s, route[k]);
            Gathered(route, k + 1, s, comps + p.comps, indices + p.indices, tensors + p.tensors)
  {
    hide Concat;
    SpanFits(route, |engine.ratios|, k);
    var from, to := Covered(route, k), Covered(route, k + 1);
    assert s.comps[..to] == s.comps[..from] + Cut(s.comps, route[k]);
    assert s.indices[..to] == s.indices[..from] + Cut(s.indices, route[k]);
    assert s.tensors[..to] == s.tensors[..from] + Cut(s.tensors, route[k]);
    ConcatOf(s.tensors[..from], Cut(s.tensors, route[k]));
  }

  lemma GatheredAll(engine: Engine, route: seq<Span>, s: Snapshot, comps: seq<U32>, indices: seq<U32>, tensors: seq<Byte>)
    requires RouteValid(route, |engine.ratios|) && SnapshotOk(engine, s)
    requires Gathered(route, |route|, s, comps, indices, tensors)
    ensures comps == s.comps && indices == s.indices && tensors == Concat(s.tensors)
  {
    hide Concat, LayerSize;
    SpanFits(route, |engine.ratios|, |route| - 1);
    assert s.tensors[..|s.tensors|] == s.tensors;
  }

  lemma NothingGathered(engine: Engine, route: seq<Span>, s: Snapshot)
    requires SnapshotOk(engine, s)
    ensures Gathered(route, 0, s, [], [], [])
  {
    hide LayerSize;
  }

  // ------------------------------------------------------------------------------
  // Saving
  // ------------------------------------------------------------------------------

  method Save(engine: Engine, route: seq<Span>, tokens: seq<U32>, logits: seq<Byte>, delivered: seq<seq<Byte>>)
    returns (r: Option<seq<Byte>>)
    requires engine.Valid() && route != [] && |delivered| == |route|
    requires |tokens| < 0x1_0000_0000 && |logits| == 4 * engine.vocab
    requires forall k | 0 <= k < |delivered| :: |delivered[k]| <= U64_MAX
    ensures SaveGives(engine, route, tokens, logits, delivered, r)
  {
    hide DecodeShard, EncodeShard, ShardOk, SnapshotOk, DeliveredFrom, RouteValid, Gathered, EncodeSession;
    var valid := ValidateRoute(route, |engine.ratios|);
    if !valid {
      return None;
    }
    ghost var parsed: seq<Shard> := [];
    var layout: Option<Layout> := None;
    var comps: seq<U32>, indices: seq<U32>, tensors: seq<Byte> := [], [], [];
    forall s | DeliveredFrom(engine, route, tokens, logits, delivered, s)
      ensures Gathered(route, 0, s, [], [], [])
    {
      FromIsOk(engine, route, tokens, logits, delivered, s);
      NothingGathered(engine, route, s);
    }
    for k := 0 to |route|
      invariant |parsed| == k && (layout.Some? <==> 0 < k)
      invariant 0 < k ==> Agree(engine, route, parsed, layout.value)
      invariant forall j | 0 <= j < k :: delivered[j] == EncodeShard(parsed[j])
      invariant 0 < k ==> parsed[0].layout == layout.value
      invariant forall s | DeliveredFrom(engine, route, tokens, logits, delivered, s) ::
                  && Gathered(route, k, s, comps, indices, tensors)
                  && (0 < k ==> layout == Some(s.layout))
    {
      forall s | DeliveredFrom(engine, route, tokens, logits, delivered, s)
        ensures Holds(s, route[k]) && delivered[k] != []
        ensures DecodeShard(engine, delivered[k], route[k].first, route[k].last) == Some(ShardOf(s, route[k]))
      {
        ShardsFromSession(engine, route, tokens, logits, delivered, s, k);
      }
      if delivered[k] == [] {
        return None;
      }
      var p := ParseShard(engine, delivered[k], route[k].first, route[k].last);
      if p.None? {
        return None;
      }
      ShardInverse(engine, delivered[k], route[k].first, route[k].last, p.value);
      if layout.Some? {
        if layout.value != p.value.layout {
          return None;
        }
      } else {
        layout := Some(p.value.layout);
      }
      forall s | DeliveredFrom(engine, route, tokens, logits, delivered, s)
        ensures Gathered(route, k + 1, s, comps + p.value.comps, indices + p.value.indices, tensors + p.value.tensors)
      {
        GatherStep(engine, route, k, s, comps, indices, tensors);
      }
      parsed := parsed + [p.value];
      comps := comps + p.value.comps;
      indices := indices + p.value.indices;
      tensors := tensors + p.value.tensors;
    }
    var l := layout.value;
    forall s | DeliveredFrom(engine, route, tokens, logits, delivered, s)
      ensures s.layout == l && l.tokenCount == |tokens| && comps == s.comps && indices == s.indices && tensors == Concat(s.tensors)
      ensures s.tokens == tokens && s.logits == logits
    {
      FromIsOk(engine, route, tokens, logits, delivered, s);
      GatheredAll(engine, route, s, comps, indices, tensors);
    }
    if l.tokenCount != |tokens| {
      return None;
    }
    SessionFromShards(engine, route, tokens, logits, delivered, parsed, l);
    r := Some(PutWords(SessionHeader(l)) + (PutWords(tokens) + (logits + (PutWords(comps) + (PutWords(indices) + tensors)))));
    forall s | DeliveredFrom(engine, route, tokens, logits, delivered, s)
      ensures r.value == EncodeSession(s)
    {
      EncodesAs(s, l, tokens, logits, comps, indices, tensors);
    }
  }

  lemma FromIsOk(engine: Engine, route: seq<Span>, tokens: seq<U32>, logits: seq<Byte>, delivered: seq<seq<Byte>>, s: Snapshot)
    requires DeliveredFrom(engine, route, tokens, logits, delivered, s)
    ensures SnapshotOk(engine, s) && s.tokens == tokens && s.logits == logits && s.layout.tokenCount == |tokens|
  {
  }

  lemma EncodesAs(s: Snapshot, l: Layout, tokens: seq<U32>, logits: seq<Byte>, comps: seq<U32>, indices: seq<U32>, tensors: seq<Byte>)
    requires s.layout == l && s.tokens == tokens && s.logits == logits && s.comps == comps && s.indices == indices
    requires tensors == Concat(s.tensors)
    ensures EncodeSession(s) ==
            PutWords(SessionHeader(l)) + (PutWords(tokens) + (logits + (PutWords(comps) + (PutWords(indices) + tensors))))
  {
  }

  // ------------------------------------------------------------------------------
  // Topology neutrality
  // ------------------------------------------------------------------------------

  /** A save goes through exactly when all nodes serialise under one layout, for the timeline
      of the coordinator.  Registration does not ensure this: it lets in workers whose context
      is larger than the coordinator's. */
  lemma SaveNeedsOneLayout(engine: Engine, route: seq<Span>, tokens: seq<U32>, logits: seq<Byte>,
                           nodes: seq<Shard>, delivered: seq<seq<Byte>>)
    requires engine.Valid() && RouteValid(route, |engine.ratios|) && |nodes| == |route| == |delivered|
    requires |logits| == 4 * engine.vocab
    requires forall k | 0 <= k < |route| ::
               && ShardOk(engine, nodes[k]) && nodes[k].first == route[k].first && nodes[k].last == route[k].last
               && delivered[k] == EncodeShard(nodes[k])
    ensures SomeSession(engine, route, tokens, logits, delivered) <==>
            nodes[0].layout.tokenCount == |tokens| && forall k | 0 <= k < |route| :: nodes[k].layout == nodes[0].layout
  {
    hide EncodeShard, ShardOk, DecodeShard, SnapshotOk, RouteValid;
    RouteIsNotEmpty(route, |engine.ratios|);
    if SomeSession(engine, route, tokens, logits, delivered) {
      var s :| DeliveredFrom(engine, route, tokens, logits, delivered, s);
      FromIsOk(engine, route, tokens, logits, delivered, s);
      forall k | 0 <= k < |route| ensures nodes[k].layout == s.layout {
        ShardsFromSession(engine, route, tokens, logits, delivered, s, k);
        ShardInverse(engine, delivered[k], route[k].first, route[k].last, nodes[k]);
      }
    }
    if nodes[0].layout.tokenCount == |tokens| && forall k | 0 <= k < |route| :: nodes[k].layout == nodes[0].layout {
      SessionFromShards(engine, route, tokens, logits, delivered, nodes, nodes[0].layout);
    }
  }

  /** What the nodes of a route write, each under its own runtime. */
  ghost function Deliver(engine: Engine, rts: seq<Runtime>, caches: seq<Cache>): (r: seq<seq<Byte>>)
    requires |rts| == |caches| && forall k | 0 <= k < |rts| :: RuntimeOk(engine, rts[k])
    ensures |r| == |rts| && forall k | 0 <= k < |r| :: r[k] == EncodeShard(Written(engine, rts[k], caches[k]))
  {
    seq(|rts|, k requires 0 <= k < |rts| => EncodeShard(Written(engine, rts[k], caches[k])))
  }

  /** Every node of the route holds its layers of a timeline of `count` tokens. */
  ghost predicate NodesHold(engine: Engine, route: seq<Span>, rts: seq<Runtime>, caches: seq<Cache>, count: nat) {
    && |rts| == |caches| == |route|
    && forall k | 0 <= k < |route| ::
         && NodeOk(engine, rts[k], caches[k]) && caches[k].count == count
         && caches[k].first == route[k].first && caches[k].last == route[k].last
  }

  ghost predicate OneRuntime(rts: seq<Runtime>, rt: Runtime) {
    forall k | 0 <= k < |rts| :: rts[k] == rt
  }

  /** So a save from nodes goes through exactly when they all run with the same sizes. */
  lemma SaveNeedsOneRuntime(engine: Engine, route: seq<Span>, tokens: seq<U32>, logits: seq<Byte>,
                            rts: seq<Runtime>, caches: seq<Cache>)
    requires engine.Valid() && RouteValid(route, |engine.ratios|) && |logits| == 4 * engine.vocab
    requires NodesHold(engine, route, rts, caches, |tokens|)
    ensures rts != []
    ensures SomeSession(engine, route, tokens, logits, Deliver(engine, rts, caches)) <==> OneRuntime(rts, rts[0])
  {
    hide ShardOk, EncodeShard, NodeLayout, SomeSession, RouteValid;
    RouteIsNotEmpty(route, |engine.ratios|);
    var nodes := seq(|route|, k requires 0 <= k < |route| => Written(engine, rts[k], caches[k]));
    SaveNeedsOneLayout(engine, route, tokens, logits, nodes, Deliver(engine, rts, caches));
    forall k | 0 <= k < |route|
      ensures nodes[k].layout == nodes[0].layout <==> rts[k] == rts[0]
    {
      HeaderTellsRuntime(engine, rts[k], rts[0], caches[k].count);
    }
    LayoutCounts(engine, rts[0], caches[0].count);
  }

  lemma LayoutCounts(engine: Engine, rt: Runtime, count: U32)
    requires RuntimeOk(engine, rt)
    ensures NodeLayout(engine, rt, count).tokenCount == count
  {
  }

  // ------------------------------------------------------------------------------
  // Save, load elsewhere, save again
  // ------------------------------------------------------------------------------

  /** A session as a single node with this runtime writes it. */
  function Stamped(engine: Engine, rt: Runtime, x: Snapshot): Snapshot
    requires RuntimeOk(engine, rt) && |x.tokens| < 0x1_0000_0000
  {
    x.(layout := NodeLayout(engine, rt, |x.tokens|))
  }

  /** A session that a single node with this runtime could hold. */
  ghost predicate Held(engine: Engine, rt: Runtime, x: Snapshot) {
    && RuntimeOk(engine, rt) && |x.tokens| < 0x1_0000_0000
    && SnapshotOk(engine, Stamped(engine, rt, x))
    && RowsFit(engine, rt.ctx, 0, x.comps) && RowsFit(engine, rt.ctx, 0, x.indices)
  }

  function CacheOf(x: Snapshot, span: Span): Cache
    requires Holds(x, span) && |x.tokens| < 0x1_0000_0000
  {
    Cache(|x.tokens|, span.first, span.last, Cut(x.comps, span), Cut(x.indices, span), Concat(Cut(x.tensors, span)))
  }

  /** Each node of the route holds its layers of the session. */
  ghost predicate CachesAre(caches: seq<Cache>, x: Snapshot, route: seq<Span>) {
    && |caches| == |route| && |x.tokens| < 0x1_0000_0000
    && forall k | 0 <= k < |route| :: Holds(x, route[k]) && caches[k] == CacheOf(x, route[k])
  }

  /** Can a node take part of what was written under `a`?  All of this can be checked before. */
  predicate Roomy(engine: Engine, a: Runtime, b: Runtime, count: nat) {
    a.ctx <= b.ctx && count < b.ctx && RawWindow(engine, a.ctx) == RawWindow(engine, b.ctx)
  }

  lemma HeldFits(engine: Engine, rt: Runtime, x: Snapshot, span: Span)
    requires Held(engine, rt, x) && span.first <= span.last < |engine.ratios|
    ensures Holds(x, span) && NodeOk(engine, rt, CacheOf(x, span))
    ensures ShardOf(Stamped(engine, rt, x), span) == Written(engine, rt, CacheOf(x, span))
  {
    hide ShardOk, NodeLayout, LayerCap;
    var s := Stamped(engine, rt, x);
    HeldShape(engine, s);
    ShardOfIsOk(engine, s, span);
    RowsFitCut(engine, rt.ctx, x.comps, span);
    RowsFitCut(engine, rt.ctx, x.indices, span);
  }

  lemma HeldShape(engine: Engine, s: Snapshot)
    requires SnapshotOk(engine, s)
    ensures |s.comps| == |s.indices| == |s.tensors| == |engine.ratios|
  {
  }

  lemma RowsFitCut(engine: Engine, ctx: U32, counts: seq<U32>, span: Span)
    requires RowsFit(engine, ctx, 0, counts) && span.first <= span.last < |counts|
    ensures RowsFit(engine, ctx, span.first, Cut(counts, span))
  {
    var part := Cut(counts, span);
    forall i | 0 <= i < |part|
      ensures span.first + i < |engine.ratios| && part[i] <= LayerCap(engine.ratios[span.first + i], ctx)
    {
      var n := counts[span.first + i];
      assert part[i] == n && n <= LayerCap(engine.ratios[0 + (span.first + i)], ctx);
    }
  }

  /** One node of the new route: it takes its layers exactly when there is room, and then it
      holds just them. */
  lemma NodeTakes(engine: Engine, a: Runtime, b: Runtime, x: Snapshot, span: Span)
    requires Held(engine, a, x) && RuntimeOk(engine, b) && span.first <= span.last < |engine.ratios|
    ensures Holds(x, span) && Holds(Stamped(engine, a, x), span)
    ensures Took(engine, b, Stamped(engine, a, x), span) == if Roomy(engine, a, b, |x.tokens|) then Some(CacheOf(x, span)) else None
    ensures Roomy(engine, a, b, |x.tokens|) ==> NodeOk(engine, b, CacheOf(x, span))
  {
    hide ShardOk, EncodeShard, Take, Fits, RawWindow, RowsFit;
    HeldFits(engine, a, x, span);
    var c := CacheOf(x, span);
    TakeOfShard(engine, b, Written(engine, a, c), c.count);
    FitsNode(engine, a, b, c);
    KeptIs(engine, a, c);
    LayoutCounts(engine, a, |x.tokens|);
    if Roomy(engine, a, b, |x.tokens|) {
      WrittenOk(engine, a, c);
      TakenIsOk(engine, b, Written(engine, a, c), c.count);
    }
  }

  lemma KeptIs(engine: Engine, a: Runtime, c: Cache)
    requires RuntimeOk(engine, a)
    ensures Kept(Written(engine, a, c)) == c
  {
  }

  lemma WrittenOk(engine: Engine, a: Runtime, c: Cache)
    requires NodeOk(engine, a, c)
    ensures ShardOk(engine, Written(engine, a, c))
  {
  }

  /** What nodes with the same sizes write is the session as a single node writes it. */
  lemma SavedAs(engine: Engine, route: seq<Span>, rts: seq<Runtime>, rt: Runtime, x: Snapshot, caches: seq<Cache>,
                saved: Option<seq<Byte>>)
    requires engine.Valid() && RouteValid(route, |engine.ratios|) && |rts| == |route|
    requires OneRuntime(rts, rt) && Held(engine, rt, x) && CachesAre(caches, x, route)
    requires SaveGives(engine, route, x.tokens, x.logits, Deliver(engine, rts, caches), saved)
    ensures saved == Some(EncodeSession(Stamped(engine, rt, x)))
  {
    hide ShardOk, EncodeShard, EncodeSession, NodeLayout, RowsFit;
    var s, delivered := Stamped(engine, rt, x), Deliver(engine, rts, caches);
    HeldShape(engine, s);
    forall k | 0 <= k < |route|
      ensures Holds(s, route[k]) && delivered[k] == EncodeShard(ShardOf(s, route[k]))
    {
      HeldFits(engine, rt, x, route[k]);
    }
    assert DeliveredFrom(engine, route, x.tokens, x.logits, delivered, s);
  }

  /** The header tells under which layout a file was written. */
  lemma HeaderIsRead(s: Snapshot, t: Snapshot)
    requires EncodeSession(s) == EncodeSession(t)
    ensures s.layout == t.layout
  {
    hide PutWords, TakeWords, Concat;
    var rest := PutWords(s.tokens) + (s.logits + (PutWords(s.comps) + (PutWords(s.indices) + Concat(s.tensors))));
    var more := PutWords(t.tokens) + (t.logits + (PutWords(t.comps) + (PutWords(t.indices) + Concat(t.tensors))));
    TakeWordsInverse(EncodeSession(s), SESSION_FIELDS, SessionHeader(s.layout), rest);
    TakeWordsInverse(EncodeSession(t), SESSION_FIELDS, SessionHeader(t.layout), more);
  }

  /** The coordinator reads the file back exactly when it has room itself. */
  lemma CoordinatorReads(engine: Engine, a: Runtime, x: Snapshot, ctx: U32)
    requires Held(engine, a, x) && TokensOk(engine, x.tokens)
    ensures var file := EncodeSession(Stamped(engine, a, x));
            DecodeSession(engine, ctx, file) == if a.ctx <= ctx && |x.tokens| < ctx then Some(Stamped(engine, a, x)) else None
  {
    hide EncodeSession, DecodeSession, TokensOk, CompCap, RawWindow, RowsFit, LayoutOk, AllBelow;
    var s := Stamped(engine, a, x);
    var file := EncodeSession(s);
    SessionInverse(engine, ctx, file, s);
    if DecodeSession(engine, ctx, file).Some? {
      var t := DecodeSession(engine, ctx, file).value;
      SessionInverse(engine, ctx, file, t);
      HeaderIsRead(s, t);
    }
  }

  ghost predicate AllRoomy(engine: Engine, a: Runtime, rts: seq<Runtime>, count: nat) {
    forall k | 0 <= k < |rts| :: Roomy(engine, a, rts[k], count)
  }

  ghost predicate AllOk(engine: Engine, rts: seq<Runtime>) {
    forall k | 0 <= k < |rts| :: RuntimeOk(engine, rts[k])
  }

  /** Loading what nodes with runtime `a` saved. */
  lemma LoadTakes(engine: Engine, a: Runtime, x: Snapshot, route: seq<Span>, rts: seq<Runtime>,
                  loaded: Option<Loaded>, taken: seq<Cache>)
    requires engine.Valid() && RouteValid(route, |engine.ratios|) && |rts| == |route| && AllOk(engine, rts)
    requires Started(rts, route)
    requires Held(engine, a, x) && TokensOk(engine, x.tokens)
    requires LoadGives(engine, route, rts, EncodeSession(Stamped(engine, a, x)), |EncodeSession(Stamped(engine, a, x))|, loaded, taken)
    ensures loaded.Some? <==> AllRoomy(engine, a, rts, |x.tokens|)
    ensures loaded.Some? ==> loaded.value == Loaded(x.tokens, x.logits) && CachesAre(taken, x, route)
    ensures loaded.Some? ==> NodesHold(engine, route, rts, taken, |x.tokens|)
  {
    hide EncodeSession, DecodeSession, TokensOk, SnapshotOk, RowsFit, RouteValid, RawWindow, CompCap, Took, NodeOk;
    RouteIsNotEmpty(route, |engine.ratios|);
    var s := Stamped(engine, a, x);
    var file := EncodeSession(s);
    assert file[..|file|] == file;
    CoordinatorReads(engine, a, x, rts[0].ctx);
    forall k | 0 <= k < |route|
      ensures Holds(x, route[k]) && Holds(s, route[k])
      ensures Took(engine, rts[k], s, route[k]) == if Roomy(engine, a, rts[k], |x.tokens|) then Some(CacheOf(x, route[k])) else None
      ensures Roomy(engine, a, rts[k], |x.tokens|) ==> NodeOk(engine, rts[k], CacheOf(x, route[k]))
    {
      SpanFits(route, |engine.ratios|, k);
      NodeTakes(engine, a, rts[k], x, route[k]);
    }
    assert Roomy(engine, a, rts[0], |x.tokens|) ==> a.ctx <= rts[0].ctx && |x.tokens| < rts[0].ctx;
  }

  /** What nodes with the same sizes write is the session as a single node writes it. */
  lemma SavedByNodes(engine: Engine, route: seq<Span>, rts: seq<Runtime>, x: Snapshot, caches: seq<Cache>, saved: Option<seq<Byte>>)
    requires engine.Valid() && RouteValid(route, |engine.ratios|) && |x.logits| == 4 * engine.vocab
    requires NodesHold(engine, route, rts, caches, |x.tokens|) && CachesAre(caches, x, route)
    requires SaveGives(engine, route, x.tokens, x.logits, Deliver(engine, rts, caches), saved)
    ensures rts != [] && (saved.Some? <==> OneRuntime(rts, rts[0]))
    ensures saved.Some? && Held(engine, rts[0], x) ==> saved == Some(EncodeSession(Stamped(engine, rts[0], x)))
  {
    hide NodeOk, EncodeShard, EncodeSession, SomeSession, CachesAre, NodeLayout, SnapshotOk, RowsFit;
    SaveNeedsOneRuntime(engine, route, x.tokens, x.logits, rts, caches);
    if saved.Some? && Held(engine, rts[0], x) {
      SavedAs(engine, route, rts, rts[0], x, caches, saved);
    }
  }

  lemma HeldElsewhere(engine: Engine, a: Runtime, b: Runtime, x: Snapshot)
    requires Held(engine, a, x) && RuntimeOk(engine, b) && Roomy(engine, a, b, |x.tokens|)
    ensures Held(engine, b, x)
  {
    hide CompCap, RawWindow, RowsFit, Sized;
    CapsGrow(engine, a.ctx, b.ctx, 0, x.comps);
    CapsGrow(engine, a.ctx, b.ctx, 0, x.indices);
    var l, m := NodeLayout(engine, a, |x.tokens|), NodeLayout(engine, b, |x.tokens|);
    SizesAgree(engine, l, m, 0, x.comps, x.indices);
    CountsFit(l, m, x.comps, |engine.ratios|);
    CountsFit(l, m, x.indices, |engine.ratios|);
  }

  /** Save on one topology, load on another, save again.  The first save goes through exactly
      when its nodes run with the same sizes, and then writes what a single such node writes.
      The load goes through exactly when every new node has room, and gives each exactly its
      layers.  The second save goes through exactly when the new nodes run with the same sizes,
      and gives the same file exactly when these are the sizes of the first nodes. */
  lemma SaveLoadSave(engine: Engine, x: Snapshot, here: seq<Span>, hereRts: seq<Runtime>, caches: seq<Cache>, saved: Option<seq<Byte>>,
                     there: seq<Span>, rts: seq<Runtime>, loaded: Option<Loaded>, taken: seq<Cache>, again: Option<seq<Byte>>)
    requires engine.Valid() && RouteValid(here, |engine.ratios|) && RouteValid(there, |engine.ratios|)
    requires NodesHold(engine, here, hereRts, caches, |x.tokens|) && CachesAre(caches, x, here)
    requires hereRts != [] && Held(engine, hereRts[0], x) && TokensOk(engine, x.tokens)
    requires Started(rts, there) && AllOk(engine, rts)
    requires SaveGives(engine, here, x.tokens, x.logits, Deliver(engine, hereRts, caches), saved)
    requires saved.Some? ==> LoadGives(engine, there, rts, saved.value, |saved.value|, loaded, taken)
    requires saved.Some? && loaded.Some? && |taken| == |rts| ==>
      SaveGives(engine, there, loaded.value.tokens, loaded.value.logits, Deliver(engine, rts, taken), again)
    ensures saved.Some? <==> OneRuntime(hereRts, hereRts[0])
    ensures saved.Some? ==> saved.value == EncodeSession(Stamped(engine, hereRts[0], x))
    ensures saved.Some? ==> (loaded.Some? <==> AllRoomy(engine, hereRts[0], rts, |x.tokens|))
    ensures saved.Some? && loaded.Some? ==> loaded.value == Loaded(x.tokens, x.logits) && CachesAre(taken, x, there)
    ensures saved.Some? && loaded.Some? ==> rts != [] && (again.Some? <==> OneRuntime(rts, rts[0]))
    ensures saved.Some? && loaded.Some? ==> (again == saved <==> OneRuntime(rts, hereRts[0]))
  {
    hide SaveGives, LoadGives, EncodeSession, RouteValid, Held, TokensOk, NodeOk, CachesAre, Roomy, Stamped, RuntimeOk, SnapshotOk;
    var a := hereRts[0];
    LogitsFit(engine, a, x);
    SavedByNodes(engine, here, hereRts, x, caches, saved);
    if saved.Some? {
      LoadTakes(engine, a, x, there, rts, loaded, taken);
      if loaded.Some? {
        SavedByNodes(engine, there, rts, x, taken, again);
        assert Roomy(engine, a, rts[0], |x.tokens|);
        HeldElsewhere(engine, a, rts[0], x);
        if again.Some? && again == saved {
          HeaderIsRead(Stamped(engine, rts[0], x), Stamped(engine, a, x));
          StampTellsRuntime(engine, rts[0], a, x);
        }
      }
    }
  }

  lemma LogitsFit(engine: Engine, rt: Runtime, x: Snapshot)
    requires Held(engine, rt, x)
    ensures |x.logits| == 4 * engine.vocab && RuntimeOk(engine, rt) && |x.tokens| < 0x1_0000_0000
  {
  }

  lemma StampTellsRuntime(engine: Engine, a: Runtime, b: Runtime, x: Snapshot)
    requires RuntimeOk(engine, a) && RuntimeOk(engine, b) && |x.tokens| < 0x1_0000_0000
    ensures Stamped(engine, a, x).layout == Stamped(engine, b, x).layout <==> a == b
  {
    HeaderTellsRuntime(engine, a, b, |x.tokens|);
  }
}
