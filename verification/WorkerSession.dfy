/** A worker's per-session token timeline and the hash that guards it
    (dist_worker_process_work_payload and dist_worker_handle_snapshot_load in
    ds4_distributed.c), on top of the slice evaluator's bookkeeping
    (ds4_session_layer_slice_reset, ds4_session_slice_check_timeline and
    ds4_session_load_layer_payload in ds4.c).  What the accelerator computes is abstract. */
module WorkerSession {
  import opened Bytes
  import opened TokenHash

  type SessionId = nat

  /** `live` is the evaluator's own mark (its checkpoint_valid): only then does its cache stand
      for the timeline.  `hash` and `valid` are the worker's record of the timeline's hash. */
  datatype Session = Session(timeline: seq<Token>, live: bool, hash: Hash, valid: bool)

  /** A session as it is allocated: an empty timeline and no hash yet. */
  const FRESH := Session([], false, 0, false)

  datatype Layers = Layers(first: nat, last: nat)

  /** Where a worker takes connections. */
  datatype Address = Address(host: string, port: nat)

  datatype RouteEntry = RouteEntry(address: Address, layers: Layers, outputLogits: bool)

  /** The fields of a WORK frame that the worker looks at. */
  datatype Work = Work(
    modelId: nat,
    session: SessionId,
    request: nat,
    prefixHash: Hash,
    resultHash: Hash,
    pos0: nat,
    tokens: seq<Token>,
    layers: Layers,
    hasInput: bool,
    outputLogits: bool,
    reset: bool,
    ackOnly: bool,
    route: seq<RouteEntry>,
    routeIndex: nat)

  /** What the worker process is configured with. */
  datatype WorkerConfig = WorkerConfig(modelId: nat, layers: Layers, hasOutput: bool, ctxSize: nat, nLayers: nat, vocab: nat)

  /** What allocator, temporary file and accelerator answer during one request.  An operation
      that fails on the accelerator may or may not have spoilt the cache first (`stillLive`). */
  datatype Engine = Engine(created: bool, fileOk: bool, resetOk: bool, evalOk: bool, stillLive: bool)

  datatype WorkError =
    | BadRouteIndex | WrongModel | WrongLayers | NoTokens | SpanTooLong
    | UnexpectedInput | MissingInput | NoOutputHead | LogitsNeedFinalLayer
    | TokenOutsideVocabulary | HashMetadata | RouteMismatch
    | NoSession | ResetFailed | PrefixMismatch | EvalFailed

  datatype Outcome = Done | Rejected(error: WorkError)

  /** Checks made before any session is touched, in the worker's order. */
  function Screen(config: WorkerConfig, w: Work): Outcome {
    if |w.route| <= w.routeIndex then Rejected(BadRouteIndex)
    else if w.modelId != config.modelId then Rejected(WrongModel)
    else if w.layers != config.layers then Rejected(WrongLayers)
    else if w.tokens == [] then Rejected(NoTokens)
    else if config.ctxSize < w.pos0 || config.ctxSize - w.pos0 < |w.tokens| then Rejected(SpanTooLong)
    else if w.hasInput && w.layers.first == 0 then Rejected(UnexpectedInput)
    else if !w.hasInput && w.layers.first != 0 then Rejected(MissingInput)
    else if w.outputLogits && !config.hasOutput then Rejected(NoOutputHead)
    else if w.outputLogits && w.layers.last + 1 != config.nLayers then Rejected(LogitsNeedFinalLayer)
    else if exists i | 0 <= i < |w.tokens| :: config.vocab <= w.tokens[i] then Rejected(TokenOutsideVocabulary)
    else if UpdateSpan(w.prefixHash, w.tokens) != w.resultHash then Rejected(HashMetadata)
    else if w.route[w.routeIndex].layers != w.layers then Rejected(RouteMismatch)
    else if w.route[w.routeIndex].outputLogits != w.outputLogits then Rejected(RouteMismatch)
    else if w.routeIndex + 1 < |w.route| && w.outputLogits then Rejected(RouteMismatch)
    else Done
  }

  /** A frame passes exactly when all of this holds. */
  lemma ScreenExactly(config: WorkerConfig, w: Work)
    ensures Screen(config, w).Done? <==>
      && w.routeIndex < |w.route| && w.modelId == config.modelId && w.layers == config.layers
      && 0 < |w.tokens| && w.pos0 + |w.tokens| <= config.ctxSize
      && (w.hasInput <==> w.layers.first != 0)
      && (w.outputLogits ==> config.hasOutput && w.layers.last + 1 == config.nLayers && w.routeIndex + 1 == |w.route|)
      && (forall t | t in w.tokens :: t < config.vocab)
      && UpdateSpan(w.prefixHash, w.tokens) == w.resultHash
      && w.route[w.routeIndex].layers == w.layers && w.route[w.routeIndex].outputLogits == w.outputLogits
  {
    hide UpdateSpan;
    if exists i | 0 <= i < |w.tokens| :: config.vocab <= w.tokens[i] {
      var i :| 0 <= i < |w.tokens| && config.vocab <= w.tokens[i];
      assert w.tokens[i] in w.tokens;
    }
  }

  // ------------------------------------------------------------------------------
  // The evaluator
  // ------------------------------------------------------------------------------

  /** Resetting forgets the timeline first; the accelerator may then still fail. */
  function Invalidated(s: Session): Session {
    s.(timeline := [], live := false)
  }

  /** A span must start where the timeline ends; without a live cache, only at position 0. */
  predicate Continues(s: Session, pos0: nat) {
    if s.live then |s.timeline| == pos0 else pos0 == 0
  }

  /** Evaluate a span: on success it is appended to the timeline, on failure the timeline
      stays, but its cache may be lost. */
  function EvalSlice(s: Session, w: Work, engine: Engine): (Session, bool) {
    if !Continues(s, w.pos0) then (s, false)
    else if engine.evalOk then (s.(timeline := s.timeline + w.tokens, live := true), true)
    else (s.(live := s.live && engine.stillLive), false)
  }

  // ------------------------------------------------------------------------------
  // The handlers
  // ------------------------------------------------------------------------------

  /** The session is reset, or its hash brought up to date, before the prefix is compared. */
  function Prepared(s: Session, reset: bool): Session {
    if reset then Invalidated(s).(hash := INIT, valid := true)
    else if !s.valid then s.(hash := Prefix(s.timeline), valid := true)
    else s
  }

  /** What one screened WORK frame does to the session, under the worker's mutex. */
  function Execute(s: Session, w: Work, engine: Engine): (Session, Outcome) {
    if w.reset && !engine.resetOk then (Invalidated(s), Rejected(ResetFailed))
    else
      var p := Prepared(s, w.reset);
      if p.hash != w.prefixHash then (p, Rejected(PrefixMismatch))
      else
        var (after, ok) := EvalSlice(p, w, engine);
        if ok then (after.(hash := w.resultHash, valid := true), Done)
        else (after.(valid := false), Rejected(EvalFailed))
  }

  /** A session file's layers, once they have arrived whole, replace the session; if the
      evaluator refuses them the timeline stays, but its cache may be lost. */
  function Restored(s: Session, tokens: seq<Token>, hash: Hash, engine: Engine): Session {
    if engine.evalOk then Session(tokens, true, hash, true)
    else s.(live := s.live && engine.stillLive, valid := false)
  }

  /** The header of a snapshot load.  `wellSized` says that its length fields agree. */
  datatype LoadRequest = LoadRequest(
    wellSized: bool, modelId: nat, session: SessionId, request: nat, layers: Layers,
    tokens: seq<Token>, hash: Hash, payloadBytes: nat)

  /** A later frame on the same connection. */
  datatype Frame = Frame(isChunk: bool, request: nat, declared: nat, data: seq<Byte>)

  const SNAPSHOT_CHUNK := 8 * 1024 * 1024

  /** The checks made on the header, in any order: each only refuses. */
  predicate LoadRequestOk(config: WorkerConfig, r: LoadRequest) {
    && r.wellSized
    && (forall t | t in r.tokens :: t < config.vocab)
    && Prefix(r.tokens) == r.hash
    && r.modelId == config.modelId && r.layers == config.layers && |r.tokens| <= config.ctxSize
  }

  predicate ChunkOk(f: Frame, request: nat, owed: nat) {
    f.isChunk && f.request == request && f.declared == |f.data| && |f.data| <= SNAPSHOT_CHUNK && |f.data| <= owed
  }

  datatype Arrival = Whole(payload: seq<Byte>) | BadFrame | HungUp

  /** Put the payload together from the frames that follow, until it is whole. */
  function Assemble(frames: seq<Frame>, request: nat, owed: nat): Arrival
    decreases |frames|
  {
    if owed == 0 then Whole([])
    else if frames == [] then HungUp
    else if !ChunkOk(frames[0], request, owed) then BadFrame
    else
      match Assemble(frames[1..], request, owed - |frames[0].data|)
      case Whole(rest) => Whole(frames[0].data + rest)
      case BadFrame => BadFrame
      case HungUp => HungUp
  }

  function Joined(frames: seq<Frame>): seq<Byte> {
    if frames == [] then [] else frames[0].data + Joined(frames[1..])
  }

  /** A payload that arrives has the announced size and is what the first frames carried. */
  lemma {:induction false} WholeIsJoined(frames: seq<Frame>, request: nat, owed: nat) returns (k: nat)
    requires Assemble(frames, request, owed).Whole?
    ensures k <= |frames| && Assemble(frames, request, owed).payload == Joined(frames[..k])
    ensures |Assemble(frames, request, owed).payload| == owed
    ensures forall i | 0 <= i < k :: frames[i].isChunk && frames[i].request == request && frames[i].declared == |frames[i].data|
    decreases |frames|
  {
    if owed == 0 {
      k := 0;
    } else {
      var n := WholeIsJoined(frames[1..], request, owed - |frames[0].data|);
      k := n + 1;
      assert frames[..k] == [frames[0]] + frames[1..][..n];
      assert frames[..k][1..] == frames[1..][..n];
      assert forall i | 0 < i < k :: frames[i] == frames[1..][i - 1];
    }
  }

  /** Whatever cut into chunks arrives is put together again. */
  lemma {:induction false} ChunksArrive(frames: seq<Frame>, request: nat)
    requires forall f | f in frames :: f.isChunk && f.request == request && f.declared == |f.data| <= 8388608
    ensures Assemble(frames, request, |Joined(frames)|) == Whole(Joined(frames))
    decreases |frames|
  {
    if frames != [] {
      assert frames[0] in frames && forall f | f in frames[1..] :: f in frames;
      ChunksArrive(frames[1..], request);
    }
  }

  // ------------------------------------------------------------------------------
  // A valid hash is the hash of the timeline, almost always
  // ------------------------------------------------------------------------------

  ghost predicate HashHonest(s: Session) {
    s.valid ==> s.hash == Prefix(s.timeline)
  }

  /** A WORK frame keeps the recorded hash honest, unless its reset fails: then it does so
      exactly when no hash was recorded, or the hash of the empty timeline. */
  lemma ExecuteKeepsHash(config: WorkerConfig, s: Session, w: Work, engine: Engine)
    requires HashHonest(s) && Screen(config, w).Done?
    ensures HashHonest(Execute(s, w, engine).0) <==> !(w.reset && !engine.resetOk && s.valid && s.hash != INIT)
  {
    SpansCompose(INIT, Prepared(s, w.reset).timeline, w.tokens);
  }

  /** What the worker could check before it starts: whatever the engine will answer, the hash
      stays honest exactly when no recorded hash is at stake in a reset. */
  lemma HashIsSafe(config: WorkerConfig, s: Session, w: Work)
    requires HashHonest(s) && Screen(config, w).Done?
    ensures (forall engine :: HashHonest(Execute(s, w, engine).0)) <==> !(w.reset && s.valid && s.hash != INIT)
  {
    forall engine
      ensures HashHonest(Execute(s, w, engine).0) <==> !(w.reset && !engine.resetOk && s.valid && s.hash != INIT)
    {
      ExecuteKeepsHash(config, s, w, engine);
    }
    var failing := Engine(true, true, false, false, false);
    assert HashHonest(Execute(s, w, failing).0) <==> !(w.reset && s.valid && s.hash != INIT);
  }

  /** The failing family is not empty: a one-token timeline forgotten by a failed reset, in a
      frame that passes every check. */
  lemma FailedResetCanBreakTheHash() returns (config: WorkerConfig, s: Session, w: Work, engine: Engine)
    ensures Screen(config, w).Done? && HashHonest(s) && s.live && w.reset && !HashHonest(Execute(s, w, engine).0)
  {
    hide UpdateSpan;
    config := WorkerConfig(0, Layers(1, 1), true, 8, 2, 10);
    OneTokenDiffers([7], [8], 0);
    var t: Token := if Prefix([7]) != INIT then 7 else 8;
    s := Session([t], true, Prefix([t]), true);
    w := Work(0, 1, 1, INIT, UpdateSpan(INIT, [9]), 0, [9], Layers(1, 1), true, true, true, false,
              [RouteEntry(Address("w", 1), Layers(1, 1), true)], 0);
    engine := Engine(true, true, false, false, false);
    ExecuteKeepsHash(config, s, w, engine);
  }

  // ------------------------------------------------------------------------------
  // What always holds, failed resets included
  // ------------------------------------------------------------------------------

  /** A recorded hash is honest, or the session holds nothing at all. */
  ghost predicate SessionOk(s: Session) {
    HashHonest(s) || (s.timeline == [] && !s.live)
  }

  /** Every coordinator names the hash of the empty timeline for position 0. */
  predicate NamesTheStart(w: Work) {
    w.pos0 == 0 ==> w.prefixHash == INIT
  }

  lemma ExecuteKeepsSession(config: WorkerConfig, s: Session, w: Work, engine: Engine)
    requires SessionOk(s) && Screen(config, w).Done? && NamesTheStart(w)
    ensures SessionOk(Execute(s, w, engine).0)
  {
    SpansCompose(INIT, Prepared(s, w.reset).timeline, w.tokens);
  }

  /** A request is only carried out on a timeline with the hash and, if its cache is live, the
      length that the coordinator named, and leaves that timeline with the span appended. */
  lemma ExecuteIsGuarded(config: WorkerConfig, s: Session, w: Work, engine: Engine)
    requires SessionOk(s) && Screen(config, w).Done? && NamesTheStart(w)
    requires Execute(s, w, engine).1.Done?
    ensures var before := if w.reset then [] else s.timeline;
      && Prefix(before) == w.prefixHash
      && (|before| == w.pos0 || w.pos0 == 0)
      && Execute(s, w, engine).0 == Session(before + w.tokens, true, w.resultHash, true)
      && Prefix(before + w.tokens) == w.resultHash
  {
    SpansCompose(INIT, Prepared(s, w.reset).timeline, w.tokens);
  }

  /** Nothing else is asked of a frame once it has passed the checks. */
  lemma GoodFrameIsCarriedOut(s: Session, w: Work, engine: Engine)
    ensures !w.reset && engine.evalOk && s.live && |s.timeline| == w.pos0 && Prefix(s.timeline) == w.prefixHash
            && (s.valid ==> s.hash == Prefix(s.timeline)) ==>
              Execute(s, w, engine) == (Session(s.timeline + w.tokens, true, w.resultHash, true), Done)
    ensures w.reset && engine.resetOk && engine.evalOk && w.pos0 == 0 && w.prefixHash == INIT ==>
              Execute(s, w, engine) == (Session(w.tokens, true, w.resultHash, true), Done)
  {
    hide UpdateSpan;
    assert [] + w.tokens == w.tokens;
  }

  lemma AssembleOne(frames: seq<Frame>, request: nat, owed: nat, i: nat, got: seq<Byte>)
    requires i < |frames| && 0 < owed && ChunkOk(frames[i], request, owed)
    ensures Prepended(got, Assemble(frames[i..], request, owed)) ==
            Prepended(got + frames[i].data, Assemble(frames[i + 1..], request, owed - |frames[i].data|))
  {
    assert frames[i..][1..] == frames[i + 1..];
    var rest := Assemble(frames[i + 1..], request, owed - |frames[i].data|);
    if rest.Whole? {
      assert got + (frames[i].data + rest.payload) == got + frames[i].data + rest.payload;
    }
  }

  function Prepended(got: seq<Byte>, a: Arrival): Arrival {
    match a
    case Whole(rest) => Whole(got + rest)
    case BadFrame => BadFrame
    case HungUp => HungUp
  }

  // ------------------------------------------------------------------------------
  // The worker process
  // ------------------------------------------------------------------------------

  function Lookup(sessions: map<SessionId, Session>, id: SessionId): Session {
    if id in sessions then sessions[id] else FRESH
  }

  /** How a snapshot load is answered; a worker that did not read the whole payload closes
      the connection after its refusal. */
  datatype LoadReply = Loaded | Refused(closes: bool) | Gone

  class Worker {
    const config: WorkerConfig
    var sessions: map<SessionId, Session>

    ghost predicate Valid()
      reads this
    {
      forall id | id in sessions :: SessionOk(sessions[id])
    }

    constructor (config: WorkerConfig)
      ensures this.config == config && sessions == map[] && Valid()
    {
      this.config := config;
      sessions := map[];
    }

    /** dist_worker_get_session_locked: find the session or allocate a fresh one. */
    method GetSession(id: SessionId, created: bool) returns (ok: bool)
      modifies this
      ensures ok == (id in old(sessions) || created)
      ensures sessions == if ok then old(sessions)[id := Lookup(old(sessions), id)] else old(sessions)
    {
      if id in sessions {
        assert sessions == sessions[id := sessions[id]];
        return true;
      }
      if !created {
        return false;
      }
      sessions := sessions[id := FRESH];
      ok := true;
    }

    method ProcessWork(w: Work, engine: Engine) returns (outcome: Outcome)
      requires Valid()
      modifies this
      ensures Screen(config, w).Rejected? ==> outcome == Screen(config, w) && sessions == old(sessions)
      ensures Screen(config, w).Done? && w.session !in old(sessions) && !engine.created ==>
        outcome == Rejected(NoSession) && sessions == old(sessions)
      ensures Screen(config, w).Done? && (w.session in old(sessions) || engine.created) ==>
        && outcome == Execute(Lookup(old(sessions), w.session), w, engine).1
        && sessions == old(sessions)[w.session := Execute(Lookup(old(sessions), w.session), w, engine).0]
      ensures NamesTheStart(w) ==> Valid()
      // a frame that goes on where a live timeline ends is carried out
      ensures Screen(config, w).Done? && !w.reset && engine.evalOk && w.session in old(sessions) ==>
        var s := old(sessions)[w.session];
        s.live && |s.timeline| == w.pos0 && Prefix(s.timeline) == w.prefixHash && (s.valid ==> s.hash == Prefix(s.timeline)) ==>
          && outcome == Done
          && sessions == old(sessions)[w.session := Session(s.timeline + w.tokens, true, w.resultHash, true)]
      // and so is one that starts over, whatever the session held
      ensures Screen(config, w).Done? && w.reset && engine.created && engine.resetOk && engine.evalOk
              && w.pos0 == 0 && w.prefixHash == INIT ==>
        && outcome == Done
        && sessions == old(sessions)[w.session := Session(w.tokens, true, w.resultHash, true)]
    {
      hide UpdateSpan, Screen;
      outcome := Screen(config, w);
      if outcome.Rejected? {
        return;
      }
      var found := GetSession(w.session, engine.created);
      if !found {
        return Rejected(NoSession);
      }
      var s := sessions[w.session];
      GoodFrameIsCarriedOut(s, w, engine);
      if NamesTheStart(w) {
        ExecuteKeepsSession(config, s, w, engine);
      }
      if w.reset {
        s := s.(timeline := [], live := false);
        if !engine.resetOk {
          sessions := sessions[w.session := s];
          return Rejected(ResetFailed);
        }
        s := s.(hash := INIT, valid := true);
      } else if !s.valid {
        var h := UpdateTokens(INIT, s.timeline);
        s := s.(hash := h, valid := true);
      }
      if s.hash != w.prefixHash {
        sessions := sessions[w.session := s];
        return Rejected(PrefixMismatch);
      }
      var (after, ok) := EvalSlice(s, w, engine);
      if ok {
        s := after.(hash := w.resultHash, valid := true);
        outcome := Done;
      } else {
        s := after.(valid := false);
        outcome := Rejected(EvalFailed);
      }
      sessions := sessions[w.session := s];
    }

    /** Read the header, check it, gather the chunks, then hand the payload to the evaluator. */
    method HandleSnapshotLoad(r: LoadRequest, frames: seq<Frame>, engine: Engine) returns (reply: LoadReply)
      requires Valid()
      modifies this
      ensures Valid()
      ensures var arrival := Assemble(frames, r.request, r.payloadBytes);
              var found := r.session in old(sessions) || engine.created;
              if !LoadRequestOk(config, r) || !engine.fileOk then
                reply == Refused(0 < r.payloadBytes) && sessions == old(sessions)
              else if !arrival.Whole? then
                reply == (if arrival.HungUp? then Gone else Refused(true)) && sessions == old(sessions)
              else if !found then reply == Refused(false) && sessions == old(sessions)
              else
                && reply == (if engine.evalOk then Loaded else Refused(false))
                && sessions == old(sessions)[r.session := Restored(Lookup(old(sessions), r.session), r.tokens, r.hash, engine)]
      ensures reply.Loaded? ==>
        && r.modelId == config.modelId && r.layers == config.layers && |r.tokens| <= config.ctxSize
        && (forall t | t in r.tokens :: t < config.vocab) && Prefix(r.tokens) == r.hash
        && r.session in sessions && sessions[r.session] == Session(r.tokens, true, r.hash, true)
      ensures reply.Refused? || reply.Gone? ==>
        forall id | id in old(sessions) :: id in sessions && sessions[id].timeline == old(sessions)[id].timeline
    {
      hide UpdateSpan, Assemble;
      var checked := CheckLoad(r);
      if !checked || !engine.fileOk {
        return Refused(0 < r.payloadBytes);
      }
      var received := ReadChunks(r.request, r.payloadBytes, frames);
      if received.HungUp? {
        return Gone;
      }
      if received.BadFrame? {
        return Refused(true);
      }
      var found := GetSession(r.session, engine.created);
      if !found {
        return Refused(false);
      }
      var s := sessions[r.session];
      if engine.evalOk {
        s := Session(r.tokens, true, r.hash, true);
        reply := Loaded;
      } else {
        s := s.(live := s.live && engine.stillLive, valid := false);
        reply := Refused(false);
      }
      sessions := sessions[r.session := s];
    }

    method CheckLoad(r: LoadRequest) returns (ok: bool)
      ensures ok <==> LoadRequestOk(config, r)
    {
      hide UpdateSpan;
      if !r.wellSized {
        return false;
      }
      for i := 0 to |r.tokens|
        invariant forall j | 0 <= j < i :: r.tokens[j] < config.vocab
      {
        if config.vocab <= r.tokens[i] {
          assert r.tokens[i] in r.tokens;
          return false;
        }
      }
      var h := UpdateTokens(INIT, r.tokens);
      if h != r.hash {
        return false;
      }
      ok := r.modelId == config.modelId && r.layers == config.layers && |r.tokens| <= config.ctxSize;
    }

    method ReadChunks(request: nat, payloadBytes: nat, frames: seq<Frame>) returns (r: Arrival)
      ensures r == Assemble(frames, request, payloadBytes)
    {
      var got: seq<Byte> := [];
      var i := 0;
      assert frames[0..] == frames;
      while |got| < payloadBytes
        invariant i <= |frames| && |got| <= payloadBytes
        invariant Assemble(frames, request, payloadBytes) == Prepended(got, Assemble(frames[i..], request, payloadBytes - |got|))
        decreases |frames| - i
      {
        if i == |frames| {
          return HungUp;
        }
        var f := frames[i];
        if !f.isChunk || f.request != request || f.declared != |f.data| || SNAPSHOT_CHUNK < |f.data| || payloadBytes - |got| < |f.data| {
          return BadFrame;
        }
        AssembleOne(frames, request, payloadBytes - |got|, i, got);
        got := got + f.data;
        i := i + 1;
      }
      assert got + [] == got;
      r := Whole(got);
    }

    method ClearSessions()
      modifies this
      ensures sessions == map[] && Valid()
    {
      sessions := map[];
    }
  }
}
