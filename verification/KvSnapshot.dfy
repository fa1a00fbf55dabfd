/** Saving a distributed session to the single-node format and loading it back under any
    route (dist_kv_route_validate, dist_kv_parse_layer_payload,
    dist_prepare_shard_from_session_payload, ds4_dist_session_save_payload and
    ds4_dist_session_load_payload in ds4_distributed.c). */
module KvSnapshot {
  import opened Wrappers
  import opened Bytes
  import opened KvFormat
  import opened KvCodec
  import opened KvFile
  import opened KvNode

  // ------------------------------------------------------------------------------
  // Routes
  // ------------------------------------------------------------------------------

  /** The layers of one node; the first of a route is the coordinator itself. */
  datatype Span = Span(first: U32, last: U32)

  /** The spans follow one another and cover layers 0 to `nLayers - 1`. */
  ghost predicate RouteValid(route: seq<Span>, nLayers: nat) {
    && route != []
    && route[0].first == 0
    && (forall i | 0 <= i < |route| :: route[i].first <= route[i].last < nLayers)
    && (forall i | 0 < i < |route| :: route[i].first == route[i - 1].last + 1)
    && route[|route| - 1].last + 1 == nLayers
  }

  method ValidateRoute(route: seq<Span>, nLayers: U32) returns (ok: bool)
    requires route != []
    ensures ok <==> RouteValid(route, nLayers)
  {
    if nLayers == 0 || route[0].first != 0 || nLayers <= route[0].last {
      return false;
    }
    var previous := route[0].last;
    for i := 1 to |route|
      invariant previous == route[i - 1].last
      invariant forall j | 0 <= j < i :: route[j].first <= route[j].last < nLayers
      invariant forall j | 0 < j < i :: route[j].first == route[j - 1].last + 1
    {
      var e := route[i];
      if previous == 0xFFFF_FFFF || e.first != previous + 1 || e.last < e.first || nLayers <= e.last {
        return false;
      }
      previous := e.last;
    }
    ok := previous + 1 == nLayers;
  }

  /** Layers held by the first `k` nodes. */
  function Covered(route: seq<Span>, k: nat): nat
    requires k <= |route|
  {
    if k == 0 then 0 else route[k - 1].last + 1
  }

  lemma {:induction false} LaterSpansAreHigher(route: seq<Span>, nLayers: nat, k: nat)
    requires RouteValid(route, nLayers) && k < |route|
    ensures route[k].first == Covered(route, k) && Covered(route, k + 1) <= nLayers
    ensures forall j | 0 <= j < k :: route[j].last < route[k].first
  {
    if 0 < k {
      LaterSpansAreHigher(route, nLayers, k - 1);
    }
  }

  // ------------------------------------------------------------------------------
  // What one node holds of a session
  // ------------------------------------------------------------------------------

  function Cut<T>(s: seq<T>, span: Span): seq<T>
    requires span.first <= span.last < |s|
  {
    s[span.first..span.last + 1]
  }

  ghost predicate Holds(s: Snapshot, span: Span) {
    span.first <= span.last && span.last < |s.comps| && |s.comps| == |s.indices| == |s.tensors|
  }

  function ShardOf(s: Snapshot, span: Span): Shard
    requires Holds(s, span)
  {
    Shard(s.layout, span.first, span.last, Cut(s.comps, span), Cut(s.indices, span), Concat(Cut(s.tensors, span)))
  }

  lemma {:induction false} ConcatLength(parts: seq<seq<Byte>>, sizes: seq<nat>)
    requires Sized(parts, sizes)
    ensures |Concat(parts)| == Sum(sizes)
  {
    if parts != [] {
      assert Sized(parts[1..], sizes[1..]);
      ConcatLength(parts[1..], sizes[1..]);
    }
  }

  lemma SizesCut(engine: Engine, l: Layout, comps: seq<U32>, indices: seq<U32>, span: Span)
    requires |comps| == |indices| <= |engine.ratios| && span.first <= span.last < |comps|
    ensures Sizes(engine, l, span.first, Cut(comps, span), Cut(indices, span)) == Cut(Sizes(engine, l, 0, comps, indices), span)
  {
    hide LayerSize;
  }

  lemma CutBelow(ws: seq<U32>, span: Span, bound: nat)
    requires span.first <= span.last < |ws| && AllBelow(ws, bound)
    ensures AllBelow(Cut(ws, span), bound)
  {
    forall w | w in Cut(ws, span) ensures w < bound {
      assert w in ws;
    }
  }

  lemma ShardOfIsOk(engine: Engine, s: Snapshot, span: Span)
    requires SnapshotOk(engine, s) && span.first <= span.last < |engine.ratios|
    ensures Holds(s, span) && ShardOk(engine, ShardOf(s, span))
  {
    hide LayerSize, Sum, AllBelow, LayoutOk;
    SizesCut(engine, s.layout, s.comps, s.indices, span);
    CutBelow(s.comps, span, s.layout.compCap + 1);
    CutBelow(s.indices, span, s.layout.compCap + 1);
    var sizes := Sizes(engine, s.layout, 0, s.comps, s.indices);
    assert Sized(Cut(s.tensors, span), Cut(sizes, span));
    ConcatLength(Cut(s.tensors, span), Cut(sizes, span));
  }

  // ------------------------------------------------------------------------------
  // Loading
  // ------------------------------------------------------------------------------

  function PrependParts(parts: seq<seq<Byte>>, r: Read<seq<seq<Byte>>>): Read<seq<seq<Byte>>> {
    match r case Short => Short case Got(more, rest) => Got(parts + more, rest)
  }

  lemma {:induction false} TakePartsSplit(b: seq<Byte>, s: seq<nat>, t: seq<nat>)
    ensures TakeParts(b, s + t) ==
            match TakeParts(b, s) case Short => Short case Got(parts, rest) => PrependParts(parts, TakeParts(rest, t))
    decreases s
  {
    hide TakeBytes;
    if s == [] {
      assert s + t == t;
      if TakeParts(b, t).Got? { assert [] + TakeParts(b, t).value == TakeParts(b, t).value; }
    } else {
      assert (s + t)[0] == s[0] && (s + t)[1..] == s[1..] + t;
      var cut := TakeBytes(b, s[0]);
      if cut.Got? {
        TakePartsSplit(cut.rest, s[1..], t);
        var r := TakeParts(cut.rest, s[1..]);
        if r.Got? && TakeParts(r.rest, t).Got? {
          assert [cut.value] + (r.value + TakeParts(r.rest, t).value) == ([cut.value] + r.value) + TakeParts(r.rest, t).value;
        }
      }
    }
  }

  lemma {:induction false} ConcatAppend(parts: seq<seq<Byte>>, part: seq<Byte>)
    ensures Concat(parts + [part]) == Concat(parts) + part
  {
    if parts == [] {
      assert parts + [part] == [part] && [part][1..] == [];
    } else {
      assert (parts + [part])[1..] == parts[1..] + [part];
      ConcatAppend(parts[1..], part);
    }
  }

  /** Copy the tensors of some layers off the session file into a layer payload. */
  method PrepareShard(file: PayloadFile, engine: Engine, l: Layout, comps: seq<U32>, indices: seq<U32>, span: Span)
    returns (r: Option<seq<Byte>>, ghost parts: seq<seq<Byte>>)
    requires file.Valid() && file.end <= U64_MAX
    requires |comps| == |indices| == |engine.ratios| && span.first <= span.last < |comps|
    modifies file
    ensures file.Valid()
    ensures match TakeParts(old(file.Unread()), Cut(Sizes(engine, l, 0, comps, indices), span))
            case Short => r.None?
            case Got(ts, rest) =>
              && parts == ts && file.Unread() == rest
              && r == Some(EncodeShard(Shard(l, span.first, span.last, Cut(comps, span), Cut(indices, span), Concat(ts))))
  {
    hide LayerSize, LayerBytes, TakeParts, TakeBytes, PutWords, Concat;
    ghost var sizes := Cut(Sizes(engine, l, 0, comps, indices), span);
    ghost var b0 := file.Unread();
    var header := PutWords(LayerHeader(l, span.first, span.last));
    var counts := PutWords(Cut(comps, span)) + PutWords(Cut(indices, span));
    var tensors: seq<Byte> := [];
    parts := [];
    NoPartsYet(b0, sizes);
    var i: nat := span.first;
    while i <= span.last
      invariant span.first <= i <= span.last + 1 && file.Valid()
      invariant tensors == Concat(parts)
      invariant TakeParts(b0, sizes) == PrependParts(parts, TakeParts(file.Unread(), sizes[i - span.first..]))
    {
      ghost var b := file.Unread();
      ghost var k := i - span.first;
      NextPart(b0, sizes, parts, b, k);
      LayerBytesExact(l, engine.ratios[i], comps[i], indices[i]);
      var size := LayerBytes(l, engine.ratios[i], comps[i], indices[i]);
      if size.None? {
        TooLong(b, sizes[k]);
        return None, [];
      }
      var part := file.ReadBytes(size.value);
      if part.None? {
        return None, [];
      }
      ConcatAppend(parts, part.value);
      tensors := tensors + part.value;
      parts := parts + [part.value];
      i := i + 1;
    }
    NoPartsLeft(file.Unread(), parts);
    assert sizes[i - span.first..] == [];
    r := Some(header + counts + tensors);
    assert header + counts + tensors ==
           header + (PutWords(Cut(comps, span)) + (PutWords(Cut(indices, span)) + tensors));
  }

  lemma NoPartsYet(b: seq<Byte>, sizes: seq<nat>)
    ensures TakeParts(b, sizes) == PrependParts([], TakeParts(b, sizes[0..])) && Concat([]) == []
  {
    hide TakeBytes;
    assert sizes[0..] == sizes;
    if TakeParts(b, sizes).Got? {
      assert [] + TakeParts(b, sizes).value == TakeParts(b, sizes).value;
    }
  }

  lemma NoPartsLeft(b: seq<Byte>, parts: seq<seq<Byte>>)
    ensures PrependParts(parts, TakeParts(b, [])) == Got(parts, b)
  {
    assert parts + [] == parts;
  }

  lemma NextPart(b0: seq<Byte>, sizes: seq<nat>, parts: seq<seq<Byte>>, b: seq<Byte>, k: nat)
    requires k < |sizes| && TakeParts(b0, sizes) == PrependParts(parts, TakeParts(b, sizes[k..]))
    ensures match TakeBytes(b, sizes[k])
            case Short => TakeParts(b0, sizes).Short?
            case Got(part, rest) => TakeParts(b0, sizes) == PrependParts(parts + [part], TakeParts(rest, sizes[k + 1..]))
  {
    hide TakeBytes;
    assert sizes[k..][1..] == sizes[k + 1..];
    var cut := TakeBytes(b, sizes[k]);
    if cut.Got? && TakeParts(cut.rest, sizes[k + 1..]).Got? {
      var more := TakeParts(cut.rest, sizes[k + 1..]).value;
      assert parts + ([cut.value] + more) == parts + [cut.value] + more;
    }
  }

  lemma TooLong(b: seq<Byte>, size: nat)
    requires |b| < size
    ensures TakeBytes(b, size).Short?
  {
  }

  /** The shards are the layers of the session that the nodes of the route hold. */
  ghost predicate ShardsAre(shards: seq<seq<Byte>>, s: Snapshot, route: seq<Span>)
  {
    && |shards| <= |route|
    && forall k | 0 <= k < |shards| :: Holds(s, route[k]) && shards[k] == EncodeShard(ShardOf(s, route[k]))
  }

  /** What a node makes of its layers of a session. */
  function Took(engine: Engine, rt: Runtime, s: Snapshot, span: Span): Option<Cache>
    requires Holds(s, span) && 0 < rt.ctx < CTX_LIMIT
  {
    Take(engine, rt, EncodeShard(ShardOf(s, span)), s.layout.tokenCount, span.first, span.last)
  }

  ghost predicate Started(rts: seq<Runtime>, route: seq<Span>) {
    |rts| == |route| && forall k | 0 <= k < |rts| :: 0 < rts[k].ctx < CTX_LIMIT
  }

  /** The first nodes of the route took their layers, and if there is a next one it refused. */
  ghost predicate TakenBy(engine: Engine, rts: seq<Runtime>, s: Snapshot, route: seq<Span>, taken: seq<Cache>)
    requires Started(rts, route)
  {
    && |taken| <= |route|
    && (forall k | 0 <= k < |taken| :: Holds(s, route[k]) && Took(engine, rts[k], s, route[k]) == Some(taken[k]))
  }

  ghost predicate Refuses(engine: Engine, rts: seq<Runtime>, s: Snapshot, route: seq<Span>, k: nat)
    requires Started(rts, route)
  {
    k < |route| && Holds(s, route[k]) && Took(engine, rts[k], s, route[k]).None?
  }

  /** Send every node its layers, in route order, until one refuses. */
  method LoadShards(file: PayloadFile, engine: Engine, l: Layout, ghost tokens: seq<U32>, ghost logits: seq<Byte>,
                    comps: seq<U32>, indices: seq<U32>, route: seq<Span>, rts: seq<Runtime>)
    returns (ok: bool, taken: seq<Cache>)
    requires file.Valid() && file.end <= U64_MAX
    requires |comps| == |indices| == |engine.ratios| && RouteValid(route, |engine.ratios|) && Started(rts, route)
    modifies file
    ensures file.Valid()
    ensures match TakeParts(old(file.Unread()), Sizes(engine, l, 0, comps, indices))
            case Short => !ok
            case Got(ts, rest) =>
              var s := Snapshot(l, tokens, logits, comps, indices, ts);
              && TakenBy(engine, rts, s, route, taken)
              && (ok ==> |taken| == |route| && file.Unread() == rest)
              && (!ok ==> Refuses(engine, rts, s, route, |taken|))
  {
    hide LayerSize, TakeParts, EncodeShard, Concat, RouteValid, Take;
    ghost var sizes := Sizes(engine, l, 0, comps, indices);
    ghost var b0 := file.Unread();
    ghost var parts: seq<seq<Byte>> := [];
    NoPartsYet(b0, sizes);
    taken := [];
    var k := 0;
    RouteIsNotEmpty(route, |engine.ratios|);
    while k < |route|
      invariant 0 <= k <= |route| && |taken| == k && file.Valid()
      invariant Covered(route, k) <= |sizes| && |parts| == Covered(route, k)
      invariant k == |route| ==> Covered(route, k) == |sizes|
      invariant TakeParts(b0, sizes) == PrependParts(parts, TakeParts(file.Unread(), sizes[Covered(route, k)..]))
      invariant forall more: seq<seq<Byte>> | |parts + more| == |sizes| ::
                  TakenBy(engine, rts, Snapshot(l, tokens, logits, comps, indices, parts + more), route, taken)
    {
      SpanFits(route, |engine.ratios|, k);
      ghost var b, span := file.Unread(), route[k];
      NextSpan(b0, sizes, parts, b, route, k);
      PartsFit(b0, sizes);
      var shard, cut := PrepareShard(file, engine, l, comps, indices, route[k]);
      if shard.None? {
        return false, taken;
      }
      forall more: seq<seq<Byte>> | |parts + cut + more| == |sizes|
        ensures TakenBy(engine, rts, Snapshot(l, tokens, logits, comps, indices, parts + cut + more), route, taken)
        ensures shard.value == EncodeShard(ShardOf(Snapshot(l, tokens, logits, comps, indices, parts + cut + more), span))
      {
        assert parts + cut + more == parts + (cut + more);
        assert Cut(parts + cut + more, span) == cut;
      }
      var cache := Take(engine, rts[k], shard.value, l.tokenCount, route[k].first, route[k].last);
      if cache.None? {
        return false, taken;
      }
      taken := taken + [cache.value];
      parts := parts + cut;
      k := k + 1;
    }
    assert sizes[|sizes|..] == [];
    NoPartsLeft(file.Unread(), parts);
    assert parts + [] == parts;
    ok := true;
  }

  lemma PartsFit(b: seq<Byte>, sizes: seq<nat>)
    ensures TakeParts(b, sizes).Got? ==> |TakeParts(b, sizes).value| == |sizes|
  {
    if TakeParts(b, sizes).Got? {
      TakePartsInverse(b, sizes, TakeParts(b, sizes).value, TakeParts(b, sizes).rest);
    }
  }

  lemma RouteIsNotEmpty(route: seq<Span>, nLayers: nat)
    requires RouteValid(route, nLayers)
    ensures route != []
  {
  }

  lemma SpanFits(route: seq<Span>, nLayers: nat, k: nat)
    requires RouteValid(route, nLayers) && k < |route|
    ensures Covered(route, k) == route[k].first <= route[k].last < nLayers
    ensures Covered(route, k + 1) == route[k].last + 1
    ensures k + 1 == |route| ==> Covered(route, k + 1) == nLayers
  {
  }

  lemma NextSpan(b0: seq<Byte>, sizes: seq<nat>, parts: seq<seq<Byte>>, b: seq<Byte>, route: seq<Span>, k: nat)
    requires k < |route| && Covered(route, k) == route[k].first <= route[k].last < |sizes|
    requires TakeParts(b0, sizes) == PrependParts(parts, TakeParts(b, sizes[Covered(route, k)..]))
    ensures match TakeParts(b, Cut(sizes, route[k]))
            case Short => TakeParts(b0, sizes).Short?
            case Got(ts, rest) =>
              |ts| == route[k].last - route[k].first + 1 &&
              TakeParts(b0, sizes) == PrependParts(parts + ts, TakeParts(rest, sizes[Covered(route, k + 1)..]))
  {
    hide TakeParts;
    var here, later := Cut(sizes, route[k]), sizes[Covered(route, k + 1)..];
    assert sizes[Covered(route, k)..] == here + later;
    TakePartsSplit(b, here, later);
    var r := TakeParts(b, here);
    if r.Got? {
      TakePartsInverse(b, here, r.value, r.rest);
      var s := TakeParts(r.rest, later);
      if s.Got? { assert parts + (r.value + s.value) == parts + r.value + s.value; }
    }
  }

  datatype Loaded = Loaded(tokens: seq<U32>, logits: seq<Byte>)

  /** Loading succeeds exactly on the encoding of a session that the coordinator can take,
      followed by nothing, when every node takes its layers.  The coordinator is the first
      node.  If a node refuses, exactly the nodes before it have taken theirs. */
  ghost predicate LoadGives(engine: Engine, route: seq<Span>, rts: seq<Runtime>, data: seq<Byte>, payloadBytes: nat,
                            r: Option<Loaded>, taken: seq<Cache>)
    requires engine.Valid() && route != [] && Started(rts, route)
  {
    if RouteValid(route, |engine.ratios|) && payloadBytes <= |data| && DecodeSession(engine, rts[0].ctx, data[..payloadBytes]).Some?
    then
      var s := DecodeSession(engine, rts[0].ctx, data[..payloadBytes]).value;
      && TakenBy(engine, rts, s, route, taken)
      && (r.Some? ==> |taken| == |route| && r.value == Loaded(s.tokens, s.logits))
      && (r.None? ==> Refuses(engine, rts, s, route, |taken|))
    else r.None?
  }

  method Load(engine: Engine, route: seq<Span>, rts: seq<Runtime>, data: seq<Byte>, payloadBytes: nat)
    returns (r: Option<Loaded>, taken: seq<Cache>)
    requires engine.Valid() && route != [] && Started(rts, route) && payloadBytes <= U64_MAX
    ensures LoadGives(engine, route, rts, data, payloadBytes, r, taken)
  {
    hide LayerSize, TakeParts, TakeWords, TakeBytes, AllBelow, RouteValid, LayoutOk, TakenBy, Refuses;
    taken := [];
    var valid := ValidateRoute(route, |engine.ratios|);
    if !valid {
      return None, [];
    }
    var file := new PayloadFile(data, payloadBytes);
    ghost var b := file.Unread();
    EveryWordIsBelow();
    TakeWordsLength(b, SESSION_FIELDS);
    var header := file.ReadWords(SESSION_FIELDS, 0x1_0000_0000);
    if header.None? {
      return None, [];
    }
    var h := header.value;
    if h[0] != SESSION_MAGIC || h[1] != SESSION_VERSION {
      return None, [];
    }
    var l := SessionLayout(h);
    if !Loadable(engine, rts[0].ctx, l) {
      return None, [];
    }
    LoadableIsOk(engine, rts[0].ctx, l);
    r, taken := LoadBody(file, engine, l, route, rts);
  }

  lemma EveryWordIsBelow()
    ensures forall ws: seq<U32> :: AllBelow(ws, 0x1_0000_0000)
  {
  }

  method LoadBody(file: PayloadFile, engine: Engine, l: Layout, route: seq<Span>, rts: seq<Runtime>)
    returns (r: Option<Loaded>, taken: seq<Cache>)
    requires file.Valid() && file.end <= U64_MAX && engine.Valid()
    requires RouteValid(route, |engine.ratios|) && Started(rts, route) && LayoutOk(engine, l)
    modifies file
    ensures var s := DecodeBody(engine, l, old(file.Unread()));
            if file.end <= |file.data| && s.Some? then
              && TakenBy(engine, rts, s.value, route, taken)
              && (r.Some? ==> |taken| == |route| && r.value == Loaded(s.value.tokens, s.value.logits))
              && (r.None? ==> Refuses(engine, rts, s.value, route, |taken|))
            else r.None?
  {
    hide LayerSize, TakeParts, TakeWords, TakeBytes, AllBelow, RouteValid, TakenBy, Refuses;
    taken := [];
    var tokens := file.ReadWords(l.tokenCount, TokenBound(engine));
    if tokens.None? {
      return None, [];
    }
    var logits := file.ReadBytes(4 * l.vocab);
    if logits.None? {
      return None, [];
    }
    ghost var b3 := file.Unread();
    TakeWordsLength(b3, l.nLayers);
    var comps := file.ReadWords(l.nLayers, l.compCap + 1);
    if comps.None? {
      return None, [];
    }
    TakeWordsLength(file.Unread(), l.nLayers);
    var indices := file.ReadWords(l.nLayers, l.compCap + 1);
    if indices.None? {
      return None, [];
    }
    var ok: bool;
    ok, taken := LoadShards(file, engine, l, tokens.value, logits.value, comps.value, indices.value, route, rts);
    if !ok {
      return None, taken;
    }
    if file.remaining != 0 {
      return None, taken;
    }
    r := Some(Loaded(tokens.value, logits.value));
  }
}
