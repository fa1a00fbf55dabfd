/** Which results the coordinator may accept, over every run of coordinator and workers:
    worker errors, session resets, snapshot loads, lost sessions, new processes, broken
    connections and new attempts included.

    The network is modelled by the frames ever written to each connection; a receiver may
    read any of them, at any time and any number of times.  FIFO sockets that deliver, or
    lose, or are cut off, only have fewer behaviours. */
module Acceptance {
  import opened Wrappers
  import opened TokenHash
  import opened WorkerSession

  type ProcId = nat

  /** One end-to-end connection.  `serial` keeps a reconnection apart from its predecessor. */
  datatype Endpoint = Coordinator | Process(id: ProcId)
  datatype Conn = Conn(src: Endpoint, dst: ProcId, serial: nat)

  /** A worker process: where it takes connections, how it is configured, and what it holds. */
  datatype Proc = Proc(address: Address, config: WorkerConfig, sessions: map<SessionId, Session>)

  /** What the coordinator put into a WORK frame, and the tokens it stands on. */
  datatype Issue = Issue(
    modelId: nat,
    session: SessionId,
    history: seq<Token>,          // the coordinator's tokens before the chunk
    tokens: seq<Token>,
    prefixHash: Hash,
    resultHash: Hash,
    reset: bool,
    ackOnly: bool,
    route: seq<RouteEntry>)

  datatype WorkFrame = WorkFrame(conn: Conn, request: nat, index: nat)
  datatype ResultFrame = ResultFrame(conn: Conn, request: nat, hash: Hash, ok: bool)

  /** A forwarder's note that a request was sent on `down` on behalf of `up`. */
  datatype Pending = Pending(up: Conn, down: Conn, request: nat)

  /** History: a worker process evaluated a request on a timeline. */
  datatype Eval = Eval(proc: ProcId, request: nat, before: seq<Token>, tokens: seq<Token>)

  /** Chunk boundaries of a span: chunk i runs from boundary i to boundary i + 1. */
  function ChunkBounds(start: nat, total: nat, cap: nat): (bounds: seq<nat>)
    requires 0 < cap
    ensures 0 < |bounds| && bounds[0] == start
    decreases total - start
  {
    if total <= start then [start]
    else [start] + ChunkBounds(if total - start < cap then total else start + cap, total, cap)
  }

  ghost predicate IsBounds(bounds: seq<nat>, start: nat, total: nat) {
    && 0 < |bounds| && bounds[0] == start && bounds[|bounds| - 1] == total
    && (forall i, j | 0 <= i < j < |bounds| :: bounds[i] < bounds[j])
    && (forall i | 0 <= i < |bounds| :: start <= bounds[i] <= total)
  }

  lemma {:induction false} ChunkBoundsAreBounds(start: nat, total: nat, cap: nat)
    requires 0 < cap && start <= total
    ensures var b := ChunkBounds(start, total, cap);
      && IsBounds(b, start, total)
      && (forall i | 0 <= i && i + 1 < |b| :: b[i + 1] - b[i] <= cap)
      && (forall i | 0 <= i && i + 2 < |b| :: b[i + 1] - b[i] == cap)
    decreases total - start
  {
    if start < total {
      var next := if total - start < cap then total else start + cap;
      ChunkBoundsAreBounds(next, total, cap);
      var rest := ChunkBounds(next, total, cap);
      assert ChunkBounds(start, total, cap) == [start] + rest;
      assert next < total ==> 2 <= |rest|;
    }
  }

  /** One pipelined call, or one span of the non-pipelined path. */
  datatype Attempt = Attempt(
    conn: Conn,
    session: SessionId,
    route: seq<RouteEntry>,
    prompt: seq<Token>,
    bounds: seq<nat>,
    reset: bool,
    firstRequest: nat,
    sent: nat,
    accepted: nat)
  {
    ghost predicate Ok() {
      && conn.src.Coordinator?
      && 0 < |bounds| && IsBounds(bounds, bounds[0], |prompt|)
      && (reset ==> bounds[0] == 0)
      && Rising(route)
    }

    function Count(): int {
      |bounds| - 1
    }

    ghost predicate HasChunk(i: nat) {
      && i + 1 < |bounds| && bounds[i] <= bounds[i + 1] <= |prompt|
    }

    function IssueOf(modelId: nat, i: nat): Issue
      requires HasChunk(i)
    {
      Issue(modelId, session, prompt[..bounds[i]], prompt[bounds[i]..bounds[i + 1]],
            Prefix(prompt[..bounds[i]]), Prefix(prompt[..bounds[i + 1]]),
            reset && i == 0, i + 1 < Count(), route)
    }
  }

  datatype State = State(
    procs: map<ProcId, Proc>,
    issued: map<nat, Issue>,
    nextRequest: nat,
    works: set<WorkFrame>,
    results: set<ResultFrame>,
    pendings: set<Pending>,
    log: set<Eval>,
    attempt: Option<Attempt>)

  const INITIAL := State(map[], map[], 1, {}, {}, {}, {}, None)

  /** Layer ranges follow one another, so they rise strictly. */
  ghost predicate Rising(route: seq<RouteEntry>) {
    && route != []
    && (forall i, j | 0 <= i < j < |route| :: route[i].layers.first < route[j].layers.first)
  }

  datatype Step =
    | StartProcess(id: ProcId, address: Address, config: WorkerConfig)
    | LoseSessions(id: ProcId)
    | LoadShard(id: ProcId, session: SessionId, tokens: seq<Token>, hash: Hash, engine: Engine)
    | BeginAttempt(attempt: Attempt, start: nat, cap: nat)
    | SendChunk(modelId: nat)
    | GiveUp
    | AcceptResult(frame: ResultFrame)
    | HandleWork(work: WorkFrame, engine: Engine, down: Conn)
    | RejectUnread(work: WorkFrame)
    | RelayResult(pending: Pending, frame: ResultFrame)
    | RelayError(pending: Pending)

  /** The frame as the worker decodes it: sender and forwarders fill in the layers and the
      logits flag of the entry it is for, and always provide a hidden state. */
  function Decoded(s: State, f: WorkFrame): Work
    requires Addressed(s, f)
  {
    var i := s.issued[f.request];
    Work(i.modelId, i.session, f.request, i.prefixHash, i.resultHash, |i.history|, i.tokens,
         i.route[f.index].layers, true, i.route[f.index].outputLogits, i.reset, i.ackOnly, i.route, f.index)
  }

  predicate Addressed(s: State, f: WorkFrame) {
    f.request in s.issued && f.index < |s.issued[f.request].route| && f.conn.dst in s.procs
  }

  /** What handling a frame does to the session it is for. */
  function Handled(s: State, f: WorkFrame, engine: Engine): (Session, Outcome)
    requires Addressed(s, f)
  {
    var p, w := s.procs[f.conn.dst], Decoded(s, f);
    var session := Lookup(p.sessions, w.session);
    if Screen(p.config, w).Rejected? then (session, Screen(p.config, w)) else Execute(session, w, engine)
  }

  /** Who takes connections at an address; processes come and go, so there may be several. */
  predicate Listens(s: State, id: ProcId, address: Address) {
    id in s.procs && s.procs[id].address == address
  }

  ghost predicate Enabled(s: State, step: Step) {
    match step
    case StartProcess(id, _, _) => id !in s.procs
    case LoseSessions(id) => id in s.procs
    case LoadShard(id, _, tokens, hash, _) => id in s.procs && Prefix(tokens) == hash
    case BeginAttempt(a, start, cap) =>
      && 0 < cap && start < |a.prompt| && a.bounds == ChunkBounds(start, |a.prompt|, cap)
      && a.conn.src.Coordinator? && Rising(a.route) && (a.reset ==> start == 0)
      // the first hop is the connection on which that worker registered
      && Listens(s, a.conn.dst, a.route[0].address)
      && a.sent == 0 && a.accepted == 0 && a.firstRequest == s.nextRequest
    case SendChunk(_) => s.attempt.Some? && s.attempt.value.HasChunk(s.attempt.value.sent)
    case GiveUp => true
    case AcceptResult(f) =>
      && s.attempt.Some? && s.attempt.value.HasChunk(s.attempt.value.accepted)
      && f in s.results && f.ok
      && f.conn == s.attempt.value.conn
      && f.request == s.attempt.value.firstRequest + s.attempt.value.accepted
      && f.hash == Prefix(s.attempt.value.prompt[..s.attempt.value.bounds[s.attempt.value.accepted + 1]])
    case HandleWork(f, _, down) =>
      && f in s.works && Addressed(s, f)
      && down.src == Process(f.conn.dst)
      // a forwarder connects to the host and port of the next entry
      && (f.index + 1 < |s.issued[f.request].route| ==> Listens(s, down.dst, s.issued[f.request].route[f.index + 1].address))
    case RejectUnread(f) => f in s.works
    case RelayResult(p, f) => p in s.pendings && f in s.results && f.conn == p.down && f.request == p.request
    case RelayError(p) => p in s.pendings
  }

  function AfterSend(s: State, a: Attempt, modelId: nat): State
    requires a.HasChunk(a.sent)
  {
    s.(issued := s.issued[s.nextRequest := a.IssueOf(modelId, a.sent)],
       nextRequest := s.nextRequest + 1,
       works := s.works + {WorkFrame(a.conn, s.nextRequest, 0)},
       attempt := Some(a.(sent := a.sent + 1)))
  }

  function AfterRefusal(s: State, f: WorkFrame): State {
    s.(results := s.results + {ResultFrame(f.conn, f.request, 0, false)})
  }

  /** The frame was evaluated; it goes on to the next worker, or its result goes back. */
  function AfterEval(s: State, f: WorkFrame, e: Eval, down: Conn): State
    requires f.request in s.issued
  {
    var s' := s.(log := s.log + {e});
    if f.index + 1 < |s.issued[f.request].route| then
      s'.(pendings := s.pendings + {Pending(f.conn, down, f.request)},
          works := s.works + {WorkFrame(down, f.request, f.index + 1)})
    else
      s'.(results := s.results + {ResultFrame(f.conn, f.request, s.issued[f.request].resultHash, true)})
  }

  function AfterSession(s: State, id: ProcId, session: SessionId, after: Session): State
    requires id in s.procs
  {
    var p := s.procs[id];
    s.(procs := s.procs[id := p.(sessions := p.sessions[session := after])])
  }

  function Apply(s: State, step: Step): State
    requires Enabled(s, step)
  {
    match step
    case StartProcess(id, address, config) => s.(procs := s.procs[id := Proc(address, config, map[])])
    case LoseSessions(id) => s.(procs := s.procs[id := s.procs[id].(sessions := map[])])
    case LoadShard(id, session, tokens, hash, engine) =>
      AfterSession(s, id, session, Restored(Lookup(s.procs[id].sessions, session), tokens, hash, engine))
    case BeginAttempt(a, _, _) => s.(attempt := Some(a))
    case SendChunk(modelId) => AfterSend(s, s.attempt.value, modelId)
    case GiveUp => s.(attempt := None)
    case AcceptResult(f) => s.(attempt := Some(s.attempt.value.(accepted := s.attempt.value.accepted + 1)))
    case HandleWork(f, engine, down) =>
      var issue := s.issued[f.request];
      var before := Lookup(s.procs[f.conn.dst].sessions, issue.session);
      var (after, outcome) := Handled(s, f, engine);
      var s' := AfterSession(s, f.conn.dst, issue.session, after);
      if outcome.Rejected? then AfterRefusal(s', f)
      else AfterEval(s', f, Eval(f.conn.dst, f.request, if issue.reset then [] else before.timeline, issue.tokens), down)
    case RejectUnread(f) => AfterRefusal(s, f)
    case RelayResult(p, f) => s.(results := s.results + {f.(conn := p.up)})
    case RelayError(p) => s.(results := s.results + {ResultFrame(p.up, p.request, 0, false)})
  }

  // ------------------------------------------------------------------------------
  // Invariant
  // ------------------------------------------------------------------------------

  ghost predicate IssueOk(i: Issue) {
    && Rising(i.route)
    && i.prefixHash == Prefix(i.history)
    && i.resultHash == Prefix(i.history + i.tokens)
  }

  /** The process that a route entry names: it listens there and holds those layers. */
  ghost predicate Named(s: State, id: ProcId, entry: RouteEntry) {
    Listens(s, id, entry.address) && s.procs[id].config.layers == entry.layers
  }

  /** A timeline that hashes like the coordinator's tokens and, past position 0, is as long. */
  ghost predicate Matches(before: seq<Token>, history: seq<Token>) {
    Prefix(before) == Prefix(history) && (|before| == |history| || history == [])
  }

  /** Nothing is ever evaluated on any other timeline. */
  ghost predicate EvalOk(s: State, e: Eval) {
    && e.request in s.issued
    && e.tokens == s.issued[e.request].tokens
    && Matches(e.before, s.issued[e.request].history)
  }

  /** The process named by the entry evaluated the request on a matching timeline. */
  ghost predicate EvaluatedBy(s: State, request: nat, entry: RouteEntry, e: Eval) {
    && e in s.log
    && request in s.issued
    && e.request == request && Named(s, e.proc, entry)
    && e.tokens == s.issued[request].tokens
    && Matches(e.before, s.issued[request].history)
  }

  ghost predicate Evaluated(s: State, request: nat, entry: RouteEntry) {
    exists e :: EvaluatedBy(s, request, entry, e)
  }

  ghost predicate EvaluatedUpTo(s: State, request: nat, index: nat) {
    && request in s.issued && index <= |s.issued[request].route|
    && forall j | 0 <= j < index :: Evaluated(s, request, s.issued[request].route[j])
  }

  ghost predicate EvaluatedFrom(s: State, request: nat, index: nat) {
    && request in s.issued
    && forall j | index <= j < |s.issued[request].route| :: Evaluated(s, request, s.issued[request].route[j])
  }

  /** A WORK frame at index k goes to where entry k listens, and was forwarded by the process
      at index k - 1. */
  ghost predicate WorkOk(s: State, f: WorkFrame) {
    && EvaluatedUpTo(s, f.request, f.index)
    && f.index < |s.issued[f.request].route|
    && Listens(s, f.conn.dst, s.issued[f.request].route[f.index].address)
    && (if f.index == 0 then f.conn.src.Coordinator?
        else f.conn.src.Process? && f.conn.src.id in s.procs
             && s.procs[f.conn.src.id].config.layers == s.issued[f.request].route[f.index - 1].layers)
  }

  ghost predicate PendingOk(s: State, p: Pending) {
    exists f ::
      && f in s.works && f.conn == p.up && f.request == p.request
      && WorkFrame(p.down, p.request, f.index + 1) in s.works
  }

  ghost predicate ResultOk(s: State, r: ResultFrame) {
    r.ok ==> exists f ::
      && f in s.works && f.conn == r.conn && f.request == r.request
      && r.request in s.issued && r.hash == s.issued[r.request].resultHash
      && EvaluatedFrom(s, r.request, f.index)
  }

  ghost predicate ChunkIssued(s: State, a: Attempt, i: nat) {
    && a.HasChunk(i)
    && a.firstRequest + i in s.issued
    && s.issued[a.firstRequest + i] == a.IssueOf(s.issued[a.firstRequest + i].modelId, i)
  }

  ghost predicate ChunkEvaluated(s: State, a: Attempt, i: nat) {
    EvaluatedFrom(s, a.firstRequest + i, 0)
  }

  ghost predicate AttemptOk(s: State, a: Attempt) {
    && a.Ok()
    && Listens(s, a.conn.dst, a.route[0].address)
    && a.firstRequest + a.sent == s.nextRequest
    && a.accepted <= a.sent
    && (forall i | 0 <= i < a.sent :: ChunkIssued(s, a, i))
    && (forall i | 0 <= i < a.accepted :: ChunkEvaluated(s, a, i))
  }

  ghost predicate Inv(s: State) {
    && (forall id, session | id in s.procs && session in s.procs[id].sessions :: SessionOk(s.procs[id].sessions[session]))
    && (forall r | r in s.issued :: r < s.nextRequest && IssueOk(s.issued[r]))
    && (forall e | e in s.log :: EvalOk(s, e))
    && (forall f | f in s.works :: WorkOk(s, f))
    && (forall p | p in s.pendings :: PendingOk(s, p))
    && (forall r | r in s.results :: ResultOk(s, r))
    && (s.attempt.Some? ==> AttemptOk(s, s.attempt.value))
  }

  lemma InitialInv()
    ensures Inv(INITIAL)
  {
  }

  // ------------------------------------------------------------------------------
  // History only grows
  // ------------------------------------------------------------------------------

  ghost predicate Extends(s: State, s': State) {
    && s.log <= s'.log && s.works <= s'.works
    && (forall r | r in s.issued :: r in s'.issued && s'.issued[r] == s.issued[r])
    && (forall id | id in s.procs :: id in s'.procs && s'.procs[id].address == s.procs[id].address && s'.procs[id].config == s.procs[id].config)
  }

  lemma EvaluatedPersists(s: State, s': State, request: nat, entry: RouteEntry)
    requires Extends(s, s') && Evaluated(s, request, entry)
    ensures Evaluated(s', request, entry)
  {
    var e :| EvaluatedBy(s, request, entry, e);
    assert EvaluatedBy(s', request, entry, e);
  }

  lemma EvaluatedFromPersists(s: State, s': State, request: nat, index: nat)
    requires Extends(s, s') && EvaluatedFrom(s, request, index)
    ensures EvaluatedFrom(s', request, index)
  {
    forall j | index <= j < |s'.issued[request].route|
      ensures Evaluated(s', request, s'.issued[request].route[j])
    {
      EvaluatedPersists(s, s', request, s.issued[request].route[j]);
    }
  }

  lemma WorkPersists(s: State, s': State, f: WorkFrame)
    requires Extends(s, s') && WorkOk(s, f)
    ensures WorkOk(s', f)
  {
    forall j | 0 <= j < f.index
      ensures Evaluated(s', f.request, s'.issued[f.request].route[j])
    {
      EvaluatedPersists(s, s', f.request, s.issued[f.request].route[j]);
    }
  }

  lemma ResultPersists(s: State, s': State, r: ResultFrame)
    requires Extends(s, s') && ResultOk(s, r)
    ensures ResultOk(s', r)
  {
    if r.ok {
      var f :| f in s.works && f.conn == r.conn && f.request == r.request
        && r.request in s.issued && r.hash == s.issued[r.request].resultHash
        && EvaluatedFrom(s, r.request, f.index);
      EvaluatedFromPersists(s, s', r.request, f.index);
      assert f in s'.works;
    }
  }

  lemma AttemptPersists(s: State, s': State, a: Attempt)
    requires Extends(s, s') && AttemptOk(s, a) && s'.nextRequest == s.nextRequest
    ensures AttemptOk(s', a)
  {
    forall i | 0 <= i < a.sent ensures ChunkIssued(s', a, i) {
      assert ChunkIssued(s, a, i);
    }
    forall i | 0 <= i < a.accepted ensures ChunkEvaluated(s', a, i) {
      assert ChunkEvaluated(s, a, i);
      EvaluatedFromPersists(s, s', a.firstRequest + i, 0);
    }
  }

  /** The parts of the invariant that speak about history carry over to any extension that
      adds no frame, request or attempt of its own. */
  lemma FramesPersist(s: State, s': State)
    requires Inv(s) && Extends(s, s')
    ensures forall e | e in s.log :: EvalOk(s', e)
    ensures forall f | f in s.works :: WorkOk(s', f)
    ensures forall p | p in s.pendings :: PendingOk(s', p)
    ensures forall r | r in s.results :: ResultOk(s', r)
  {
    forall e | e in s.log ensures EvalOk(s', e) { assert EvalOk(s, e); }
    forall f | f in s.works ensures WorkOk(s', f) { WorkPersists(s, s', f); }
    forall r | r in s.results ensures ResultOk(s', r) { ResultPersists(s, s', r); }
    forall p | p in s.pendings ensures PendingOk(s', p) {
      var f :| f in s.works && f.conn == p.up && f.request == p.request
        && WorkFrame(p.down, p.request, f.index + 1) in s.works;
      assert f in s'.works && WorkFrame(p.down, p.request, f.index + 1) in s'.works;
    }
  }

  // ------------------------------------------------------------------------------
  // Every step keeps the invariant
  // ------------------------------------------------------------------------------

  lemma SendKeepsInv(s: State, a: Attempt, modelId: nat)
    requires Inv(s) && s.attempt == Some(a) && a.HasChunk(a.sent)
    ensures Inv(AfterSend(s, a, modelId))
  {
    hide UpdateSpan;
    var s' := AfterSend(s, a, modelId);
    var issue := a.IssueOf(modelId, a.sent);
    assert issue.history + issue.tokens == a.prompt[..a.bounds[a.sent + 1]];
    assert IssueOk(issue);
    assert Extends(s, s');
    FramesPersist(s, s');
    assert WorkOk(s', WorkFrame(a.conn, s.nextRequest, 0));
    SendKeepsAttempt(s, s', a, modelId);
  }

  lemma SendKeepsAttempt(s: State, s': State, a: Attempt, modelId: nat)
    requires AttemptOk(s, a) && a.HasChunk(a.sent) && s' == AfterSend(s, a, modelId) && Extends(s, s')
    ensures AttemptOk(s', s'.attempt.value)
  {
    hide UpdateSpan;
    var a' := s'.attempt.value;
    forall i | 0 <= i < a'.sent ensures ChunkIssued(s', a', i) {
      if i < a.sent { assert ChunkIssued(s, a, i); }
    }
    forall i | 0 <= i < a'.accepted ensures ChunkEvaluated(s', a', i) {
      assert ChunkEvaluated(s, a, i);
      EvaluatedFromPersists(s, s', a.firstRequest + i, 0);
    }
  }

  /** A good result on the coordinator's connection came back through the whole chain. */
  lemma ResultMeansEvaluated(s: State, r: ResultFrame)
    requires Inv(s) && r in s.results && r.ok && r.conn.src.Coordinator?
    ensures EvaluatedFrom(s, r.request, 0)
    ensures r.request < s.nextRequest
  {
    assert ResultOk(s, r);
    var f :| f in s.works && f.conn == r.conn && f.request == r.request
      && EvaluatedFrom(s, r.request, f.index);
    assert WorkOk(s, f);
  }

  lemma AcceptKeepsInv(s: State, r: ResultFrame)
    requires Inv(s) && Enabled(s, AcceptResult(r))
    ensures Inv(s.(attempt := Some(s.attempt.value.(accepted := s.attempt.value.accepted + 1))))
  {
    hide UpdateSpan;
    var a := s.attempt.value;
    var a' := a.(accepted := a.accepted + 1);
    var s' := s.(attempt := Some(a'));
    ResultMeansEvaluated(s, r);
    assert Extends(s, s');
    FramesPersist(s, s');
    forall i | 0 <= i < a'.sent ensures ChunkIssued(s', a', i) {
      assert ChunkIssued(s, a, i);
    }
    forall i | 0 <= i < a'.accepted ensures ChunkEvaluated(s', a', i) {
      if i < a.accepted { assert ChunkEvaluated(s, a, i); }
      EvaluatedFromPersists(s, s', a.firstRequest + i, 0);
    }
  }

  /** On one connection a request has one route index: the sender's layers decide it. */
  lemma OneIndexPerConnection(s: State, f: WorkFrame, g: WorkFrame)
    requires Inv(s) && f in s.works && g in s.works
    requires f.conn == g.conn && f.request == g.request
    ensures f.index == g.index
  {
    assert WorkOk(s, f) && WorkOk(s, g);
    assert IssueOk(s.issued[f.request]);
  }

  /** The pending note says which index a result from below belongs to. */
  lemma RelayedResultOk(s: State, p: Pending, r: ResultFrame)
    requires Inv(s) && p in s.pendings && r in s.results && r.conn == p.down && r.request == p.request
    ensures ResultOk(s, r.(conn := p.up))
  {
    if r.ok {
      assert PendingOk(s, p) && ResultOk(s, r);
      var up :| up in s.works && up.conn == p.up && up.request == p.request
        && WorkFrame(p.down, p.request, up.index + 1) in s.works;
      var below :| below in s.works && below.conn == r.conn && below.request == r.request
        && r.hash == s.issued[r.request].resultHash
        && EvaluatedFrom(s, r.request, below.index);
      OneIndexPerConnection(s, WorkFrame(p.down, p.request, up.index + 1), below);
      ForwardedMeansEvaluated(s, up, below);
    }
  }

  /** What was forwarded from index k was evaluated there. */
  lemma ForwardedMeansEvaluated(s: State, up: WorkFrame, below: WorkFrame)
    requires Inv(s) && below in s.works && below.request == up.request && below.index == up.index + 1
    requires EvaluatedFrom(s, up.request, below.index)
    ensures EvaluatedFrom(s, up.request, up.index)
  {
    assert WorkOk(s, below);
  }

  /** Results and attempts alone do not disturb what is already there. */
  lemma NewResultKeepsInv(s: State, r: ResultFrame)
    requires Inv(s) && ResultOk(s, r)
    ensures Inv(s.(results := s.results + {r}))
  {
    var s' := s.(results := s.results + {r});
    assert Extends(s, s');
    FramesPersist(s, s');
    ResultPersists(s, s', r);
    if s.attempt.Some? { AttemptPersists(s, s', s.attempt.value); }
  }

  lemma NewSessionKeepsInv(s: State, id: ProcId, session: SessionId, after: Session)
    requires Inv(s) && id in s.procs && SessionOk(after)
    ensures Inv(AfterSession(s, id, session, after))
  {
    var s' := AfterSession(s, id, session, after);
    assert Extends(s, s');
    FramesPersist(s, s');
    if s.attempt.Some? { AttemptPersists(s, s', s.attempt.value); }
  }

  lemma LogKeepsInv(s: State, e: Eval)
    requires Inv(s) && EvalOk(s, e)
    ensures Inv(s.(log := s.log + {e}))
    ensures forall f | f in s.works :: WorkOk(s.(log := s.log + {e}), f)
  {
    var s' := s.(log := s.log + {e});
    assert Extends(s, s');
    FramesPersist(s, s');
    if s.attempt.Some? { AttemptPersists(s, s', s.attempt.value); }
  }

  lemma PassedOnOk(s: State, f: WorkFrame, down: Conn)
    requires WorkOk(s, f)
    requires f.conn.dst in s.procs && down.src == Process(f.conn.dst)
    requires f.index + 1 < |s.issued[f.request].route|
    requires Named(s, f.conn.dst, s.issued[f.request].route[f.index])
    requires Listens(s, down.dst, s.issued[f.request].route[f.index + 1].address)
    requires Evaluated(s, f.request, s.issued[f.request].route[f.index])
    ensures WorkOk(s, WorkFrame(down, f.request, f.index + 1))
  {
  }

  function PassedOn(s: State, f: WorkFrame, down: Conn): State {
    s.(pendings := s.pendings + {Pending(f.conn, down, f.request)},
       works := s.works + {WorkFrame(down, f.request, f.index + 1)})
  }

  lemma PassingOnKeepsInv(s: State, f: WorkFrame, down: Conn)
    requires Inv(s) && f in s.works && WorkOk(s, f) && WorkOk(s, WorkFrame(down, f.request, f.index + 1))
    ensures Inv(PassedOn(s, f, down))
  {
    hide UpdateSpan, WorkOk, ResultOk, IssueOk, SessionOk, AttemptOk, EvalOk;
    var s', g := PassedOn(s, f, down), WorkFrame(down, f.request, f.index + 1);
    assert Extends(s, s');
    FramesPersist(s, s');
    WorkPersists(s, s', g);
    assert PendingOk(s', Pending(f.conn, down, f.request)) by {
      assert f in s'.works && g in s'.works;
    }
    if s.attempt.Some? { AttemptPersists(s, s', s.attempt.value); }
  }

  /** A process that evaluated a frame where the route wants it may log and pass it on. */
  lemma EvalKeepsInv(s: State, f: WorkFrame, e: Eval, down: Conn)
    requires Inv(s) && f in s.works && f.request in s.issued
    requires f.conn.dst in s.procs && down.src == Process(f.conn.dst)
    requires f.index < |s.issued[f.request].route|
    requires Named(s, f.conn.dst, s.issued[f.request].route[f.index]) && e.proc == f.conn.dst
    requires e.request == f.request && e.tokens == s.issued[f.request].tokens
    requires Matches(e.before, s.issued[f.request].history)
    requires f.index + 1 < |s.issued[f.request].route| ==> Listens(s, down.dst, s.issued[f.request].route[f.index + 1].address)
    ensures Inv(AfterEval(s, f, e, down))
  {
    hide UpdateSpan, Inv, Matches;
    var s' := s.(log := s.log + {e});
    var route := s.issued[f.request].route;
    LogKeepsInv(s, e);
    assert EvaluatedBy(s', f.request, route[f.index], e);
    if f.index + 1 < |route| {
      PassedOnOk(s', f, down);
      PassingOnKeepsInv(s', f, down);
    } else {
      assert EvaluatedFrom(s', f.request, f.index);
      NewResultKeepsInv(s', ResultFrame(f.conn, f.request, s.issued[f.request].resultHash, true));
    }
  }

  /** What a process does to its session keeps the session's invariant, and a request that is
      carried out is carried out by the right process on a matching timeline. */
  lemma HandledIsGuarded(s: State, f: WorkFrame, engine: Engine)
    requires Inv(s) && f in s.works && Addressed(s, f)
    ensures SessionOk(Handled(s, f, engine).0)
    ensures Handled(s, f, engine).1.Done? ==>
      && Named(s, f.conn.dst, s.issued[f.request].route[f.index])
      && Matches(if s.issued[f.request].reset then [] else Lookup(s.procs[f.conn.dst].sessions, s.issued[f.request].session).timeline,
                 s.issued[f.request].history)
  {
    hide UpdateSpan;
    var issue, p, w := s.issued[f.request], s.procs[f.conn.dst], Decoded(s, f);
    var before := Lookup(p.sessions, issue.session);
    assert SessionOk(before);
    assert WorkOk(s, f) && IssueOk(issue);
    if Screen(p.config, w).Done? {
      StartIsNamed(issue, w);
      ExecuteKeepsSession(p.config, before, w, engine);
      if Execute(before, w, engine).1.Done? {
        ExecuteIsGuarded(p.config, before, w, engine);
      }
    }
  }

  lemma StartIsNamed(issue: Issue, w: Work)
    requires IssueOk(issue) && w.pos0 == |issue.history| && w.prefixHash == issue.prefixHash
    ensures NamesTheStart(w)
  {
  }

  lemma HandleKeepsInv(s: State, f: WorkFrame, engine: Engine, down: Conn)
    requires Inv(s) && Enabled(s, HandleWork(f, engine, down))
    ensures Inv(Apply(s, HandleWork(f, engine, down)))
  {
    hide UpdateSpan, Handled, SessionOk, Matches;
    var issue := s.issued[f.request];
    var (after, outcome) := Handled(s, f, engine);
    HandledIsGuarded(s, f, engine);
    NewSessionKeepsInv(s, f.conn.dst, issue.session, after);
    var s' := AfterSession(s, f.conn.dst, issue.session, after);
    if outcome.Done? {
      var before := Lookup(s.procs[f.conn.dst].sessions, issue.session);
      EvalKeepsInv(s', f, Eval(f.conn.dst, f.request, if issue.reset then [] else before.timeline, issue.tokens), down);
    } else {
      NewResultKeepsInv(s', ResultFrame(f.conn, f.request, 0, false));
    }
  }

  lemma StepKeepsInv(s: State, step: Step)
    requires Inv(s) && Enabled(s, step)
    ensures Inv(Apply(s, step))
  {
    hide UpdateSpan;
    match step
    case StartProcess(id, address, config) => ProcessesKeepInv(s, id, Proc(address, config, map[]));
    case LoseSessions(id) => ProcessesKeepInv(s, id, s.procs[id].(sessions := map[]));
    case LoadShard(id, session, tokens, hash, engine) =>
      NewSessionKeepsInv(s, id, session, Restored(Lookup(s.procs[id].sessions, session), tokens, hash, engine));
    case BeginAttempt(a, start, cap) =>
      ChunkBoundsAreBounds(start, |a.prompt|, cap);
      NewAttemptKeepsInv(s, Some(a));
    case SendChunk(modelId) => SendKeepsInv(s, s.attempt.value, modelId);
    case GiveUp => NewAttemptKeepsInv(s, None);
    case AcceptResult(f) => AcceptKeepsInv(s, f);
    case HandleWork(f, engine, down) => HandleKeepsInv(s, f, engine, down);
    case RejectUnread(f) => NewResultKeepsInv(s, ResultFrame(f.conn, f.request, 0, false));
    case RelayResult(p, f) =>
      RelayedResultOk(s, p, f);
      NewResultKeepsInv(s, f.(conn := p.up));
    case RelayError(p) => NewResultKeepsInv(s, ResultFrame(p.up, p.request, 0, false));
  }

  lemma ProcessesKeepInv(s: State, id: ProcId, p: Proc)
    requires Inv(s) && p.sessions == map[]
    requires id in s.procs ==> p.address == s.procs[id].address && p.config == s.procs[id].config
    ensures Inv(s.(procs := s.procs[id := p]))
  {
    var s' := s.(procs := s.procs[id := p]);
    assert Extends(s, s');
    FramesPersist(s, s');
    if s.attempt.Some? { AttemptPersists(s, s', s.attempt.value); }
  }

  lemma NewAttemptKeepsInv(s: State, attempt: Option<Attempt>)
    requires Inv(s)
    requires attempt.Some? ==> AttemptOk(s, attempt.value)
    ensures Inv(s.(attempt := attempt))
  {
    var s' := s.(attempt := attempt);
    assert Extends(s, s');
    FramesPersist(s, s');
    if attempt.Some? { AttemptPersists(s, s', attempt.value); }
  }
}
