/** Which workers a save can cope with, and which registration lets in
    (dist_coordinator_client_main against ds4_dist_session_save_payload in ds4_distributed.c). */
module KvRegistration {
  import opened Wrappers
  import opened Bytes
  import opened KvFormat
  import opened KvCodec
  import opened KvNode
  import opened KvSnapshot
  import opened KvTopology
  import RouteSearch

  /** Registration refuses workers with a smaller context than the coordinator's.  A worker it
      admits with any other context makes every save fail. */
  lemma LargerWorkerContextCannotSave(setup: RouteSearch.Setup, hello: RouteSearch.Hello,
                                      engine: Engine, route: seq<Span>, rts: seq<Runtime>, k: nat,
                                      tokens: seq<U32>, logits: seq<Byte>, caches: seq<Cache>, saved: Option<seq<Byte>>)
    requires engine.Valid() && RouteValid(route, |engine.ratios|) && |logits| == 4 * engine.vocab
    requires NodesHold(engine, route, rts, caches, |tokens|) && k < |rts|
    requires RouteSearch.Admit(setup, hello).Admitted?
    requires rts[0].ctx == setup.ctxSize && rts[k].ctx == hello.ctxSize && hello.ctxSize != setup.ctxSize
    requires SaveGives(engine, route, tokens, logits, Deliver(engine, rts, caches), saved)
    ensures setup.ctxSize < hello.ctxSize && saved.None?
  {
    hide NodeLayout, EncodeShard, ShardOk, RouteValid, SomeSession;
    SaveNeedsOneRuntime(engine, route, tokens, logits, rts, caches);
  }

  /** There are such workers: a coordinator with context 8, a worker with context 16, and a
      timeline of one token evaluated on both. */
  lemma AdmittedWorkerCannotSave()
    returns (setup: RouteSearch.Setup, hello: RouteSearch.Hello, engine: Engine, route: seq<Span>, rts: seq<Runtime>, caches: seq<Cache>)
    ensures RouteSearch.Admit(setup, hello).Admitted? && rts == [Runtime(setup.ctxSize, 4, 8), Runtime(hello.ctxSize, 4, 8)]
    ensures engine.Valid() && 0 < engine.vocab && RouteValid(route, |engine.ratios|)
    ensures NodesHold(engine, route, rts, caches, 1)
    ensures !SomeSession(engine, route, [0], [0, 0, 0, 0], Deliver(engine, rts, caches))
  {
    hide EncodeShard, SomeSession, NodeOk, NodeLayout;
    setup := RouteSearch.Setup(7, [109], 2, 8, 0, 0, false, true);
    hello := RouteSearch.Hello(7, [109], 2, 1, 1, 1, 1, 16, 2, 9000);
    engine := Engine([0, 0], 1, 4, 1, 1);
    route := [Span(0, 0), Span(1, 1)];
    rts := [Runtime(8, 4, 8), Runtime(16, 4, 8)];
    caches := [Cache(1, 0, 0, [0], [0], [0, 0, 0, 0]), Cache(1, 1, 1, [0], [0], [0, 0, 0, 0])];
    OneTokenOk(engine, rts[0], caches[0]);
    OneTokenOk(engine, rts[1], caches[1]);
    SaveNeedsOneRuntime(engine, route, [0], [0, 0, 0, 0], rts, caches);
    assert rts[1] != rts[0];
  }

  lemma OneTokenOk(engine: Engine, rt: Runtime, c: Cache)
    requires engine == Engine([0, 0], 1, 4, 1, 1) && 8 <= rt.ctx < CTX_LIMIT && rt.rawCap == 8
    requires c.count == 1 && c.first == c.last < 2 && c.comps == [0] && c.indices == [0] && |c.tensors| == 4
    ensures NodeOk(engine, rt, c)
  {
    hide CompCap;
    var l := NodeLayout(engine, rt, c.count);
    var sizes := Sizes(engine, l, c.first, c.comps, c.indices);
    assert sizes[0] == 4 && sizes[1..] == [];
    assert Sum(sizes) == 4;
  }
}
