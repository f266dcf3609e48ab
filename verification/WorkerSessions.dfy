/** Worker-side sessions: KV state keyed by session id, each guarded by a rolling token hash. */
module WorkerSessions {
  import opened Wire
  import opened TokenHash
  import opened Engine

  datatype WorkerSession = WorkerSession(engine: EngineSession, hash: U64, hashValid: bool)

  /** The parts of a WORK frame that reach the session. */
  datatype Work = Work(
    session: U64,
    request: nat,
    prefixHash: U64,
    resultHash: U64,
    pos0: nat,
    tokens: seq<int>,
    reset: bool,
    ackOnly: bool,
    input: Input)

  function FreshSession(e: SliceEngine): WorkerSession {
    WorkerSession(EngineSession([], false, e.emptyKv), 0, false)
  }

  /** The result hash must be the prefix hash rolled over the frame's own tokens. */
  predicate HashMetadataOk(w: Work) {
    HashSpan(w.prefixHash, w.tokens) == w.resultHash
  }

  /** The session right before the prefix comparison: reset, or with its hash recomputed on demand. */
  function Prepare(e: SliceEngine, ws: WorkerSession, w: Work): WorkerSession {
    if w.reset then WorkerSession(Reset(e, ws.engine, ResetWorks), HASH_INIT, true)
    else if !ws.hashValid then ws.(hash := HashPrefix(ws.engine.tokens), hashValid := true)
    else ws
  }

  /** Whether a frame reaches the slice and the slice succeeds. */
  predicate Evaluates(e: SliceEngine, ws: WorkerSession, w: Work, ro: ResetOutcome, eo: EvalOutcome) {
    && HashMetadataOk(w)
    && (w.reset ==> ro.ResetWorks?)
    && Prepare(e, ws, w).hash == w.prefixHash
    && EvalSucceeds(Prepare(e, ws, w).engine, w.pos0, eo)
  }

  /** The session after one WORK frame, for every outcome of the engine calls. */
  function RunWork(e: SliceEngine, ws: WorkerSession, w: Work, ro: ResetOutcome, eo: EvalOutcome): WorkerSession {
    if !HashMetadataOk(w) then ws
    else if w.reset && ro.ResetFails? then ws.(engine := Reset(e, ws.engine, ro))
    else
      var ready := Prepare(e, ws, w);
      if ready.hash != w.prefixHash then ready
      else
        var after := Eval(e, ready.engine, w.tokens, w.pos0, w.input, eo);
        if EvalSucceeds(ready.engine, w.pos0, eo)
        then WorkerSession(after, w.resultHash, true)
        else WorkerSession(after, ready.hash, false)
  }

  /** What the engine reports for a shard: installed, refused by its header before anything is touched, or
      failed half-way, which invalidates the checkpoint. */
  datatype LoadOutcome = LoadWorks(kv: Kv) | LoadRefuses | LoadFails(kvLeft: Kv)

  /** Installing a KV shard: the timeline becomes the given tokens, or the stored hash is given up. */
  function RunLoad(ws: WorkerSession, tokens: seq<int>, hash: U64, outcome: LoadOutcome): WorkerSession {
    match outcome
    case LoadWorks(kv) => WorkerSession(EngineSession(tokens, true, kv), hash, true)
    case LoadRefuses => ws.(hashValid := false)
    case LoadFails(kv) => WorkerSession(EngineSession(ws.engine.tokens, false, kv), ws.hash, false)
  }

  /** Everything any connection can make a worker do to its sessions. */
  datatype Op =
    | DoWork(w: Work, ro: ResetOutcome, eo: EvalOutcome)
    | LoadShard(session: U64, tokens: seq<int>, hash: U64, outcome: LoadOutcome)
    | ClearSessions

  type Sessions = map<U64, WorkerSession>

  function Lookup(e: SliceEngine, m: Sessions, id: U64): WorkerSession {
    if id in m then m[id] else FreshSession(e)
  }

  function StepOp(e: SliceEngine, m: Sessions, op: Op): Sessions {
    match op
    case DoWork(w, ro, eo) =>
      if HashMetadataOk(w) then m[w.session := RunWork(e, Lookup(e, m, w.session), w, ro, eo)] else m
    case LoadShard(id, tokens, hash, outcome) =>
      if HashPrefix(tokens) == hash then m[id := RunLoad(Lookup(e, m, id), tokens, hash, outcome)] else m
    case ClearSessions => map[]
  }

  function RunOps(e: SliceEngine, m: Sessions, ops: seq<Op>): Sessions
    decreases |ops|
  {
    if ops == [] then m else RunOps(e, StepOp(e, m, ops[0]), ops[1..])
  }

  // ---------------------------------------------------------------- the worker object

  class Worker {
    const engine: SliceEngine
    var sessions: Sessions

    constructor (e: SliceEngine)
      ensures engine == e && sessions == map[]
    {
      engine := e;
      sessions := map[];
    }

    /** Finds the session or creates it, as both WORK and snapshot loads do under the lock. */
    method GetSession(id: U64) returns (ws: WorkerSession)
      modifies this
      ensures ws == Lookup(engine, old(sessions), id)
      ensures sessions == old(sessions)[id := ws]
    {
      if id in sessions {
        ws := sessions[id];
        assert sessions[id := ws] == sessions;
      } else {
        ws := FreshSession(engine);
        sessions := sessions[id := ws];
      }
    }

    /** The session made ready for the prefix comparison, or none when its reset fails. */
    method PrepareSession(w: Work, ro: ResetOutcome) returns (ready: bool, ws: WorkerSession)
      modifies this
      ensures ready <==> (w.reset ==> ro.ResetWorks?)
      ensures ready ==> ws == Prepare(engine, Lookup(engine, old(sessions), w.session), w)
      ensures !ready
        ==> ws == Lookup(engine, old(sessions),
                         w.session).(engine := Reset(engine, Lookup(engine, old(sessions), w.session).engine, ro))
      ensures sessions == old(sessions)[w.session := ws]
    {
      ws := GetSession(w.session);
      ready := true;
      if w.reset {
        ws := ws.(engine := Reset(engine, ws.engine, ro));
        if ro.ResetFails? {
          ready := false;
        } else {
          ws := ws.(hash := HASH_INIT, hashValid := true);
        }
      } else if !ws.hashValid {
        var recomputed := HashSpanLoop(HASH_INIT, ws.engine.tokens);
        ws := ws.(hash := recomputed, hashValid := true);
      }
      sessions := sessions[w.session := ws];
    }

    method ProcessWork(w: Work, ro: ResetOutcome, eo: EvalOutcome) returns (evaluated: bool)
      modifies this
      ensures sessions == StepOp(engine, old(sessions), DoWork(w, ro, eo))
      ensures evaluated == Evaluates(engine, Lookup(engine, old(sessions), w.session), w, ro, eo)
    {
      var rolled := HashSpanLoop(w.prefixHash, w.tokens);
      if rolled != w.resultHash {
        return false;
      }
      var ready, ws := PrepareSession(w, ro);
      if !ready || ws.hash != w.prefixHash {
        return false;
      }
      evaluated := EvalSucceeds(ws.engine, w.pos0, eo);
      var after := Eval(engine, ws.engine, w.tokens, w.pos0, w.input, eo);
      if evaluated {
        ws := WorkerSession(after, w.resultHash, true);
      } else {
        ws := WorkerSession(after, ws.hash, false);
      }
      sessions := sessions[w.session := ws];
    }

    method ProcessLoad(id: U64, tokens: seq<int>, hash: U64, outcome: LoadOutcome) returns (loaded: bool)
      modifies this
      ensures sessions == StepOp(engine, old(sessions), LoadShard(id, tokens, hash, outcome))
      ensures loaded <==> HashPrefix(tokens) == hash && outcome.LoadWorks?
    {
      var actual := HashSpanLoop(HASH_INIT, tokens);
      if actual != hash {
        return false;
      }
      var ws := GetSession(id);
      loaded := outcome.LoadWorks?;
      sessions := sessions[id := RunLoad(ws, tokens, hash, outcome)];
    }

    /** A shard is only handed out for a session whose live timeline has the requested length and hash. */
    method ProcessSave(id: U64, count: nat, hash: U64) returns (granted: bool)
      ensures granted
        <==> id in sessions && |sessions[id].engine.tokens| == count && HashPrefix(sessions[id].engine.tokens) == hash
    {
      if id !in sessions || |sessions[id].engine.tokens| != count {
        return false;
      }
      var live := HashSpanLoop(HASH_INIT, sessions[id].engine.tokens);
      granted := live == hash;
    }

    method Clear()
      modifies this
      ensures sessions == StepOp(engine, old(sessions), ClearSessions)
    {
      sessions := map[];
    }
  }

  // ---------------------------------------------------------------- the hash invariant

  /** A stored hash that claims to be valid is the hash of the timeline. */
  predicate Trustworthy(ws: WorkerSession) {
    ws.hashValid ==> ws.hash == HashPrefix(ws.engine.tokens)
  }

  ghost predicate AllTrustworthy(m: Sessions) {
    forall id :: id in m ==> Trustworthy(m[id])
  }

  /** The one step that leaves a stale hash behind: a reset that fails after the engine has emptied
      the timeline of a session whose stored hash is valid and not the initial one. */
  predicate LeavesStaleHash(e: SliceEngine, m: Sessions, op: Op) {
    && op.DoWork?
    && HashMetadataOk(op.w)
    && op.w.reset && op.ro.ResetFails?
    && Lookup(e, m, op.w.session).hashValid
    && Lookup(e, m, op.w.session).hash != HASH_INIT
  }

  lemma RunWorkTrust(e: SliceEngine, ws: WorkerSession, w: Work, ro: ResetOutcome, eo: EvalOutcome)
    requires Trustworthy(ws)
    ensures Trustworthy(RunWork(e, ws, w, ro, eo))
       <==> !(HashMetadataOk(w) && w.reset && ro.ResetFails? && ws.hashValid && ws.hash != HASH_INIT)
  {
    assert HashPrefix([]) == HASH_INIT;
    if Evaluates(e, ws, w, ro, eo) {
      HashSpanComposes(HASH_INIT, Prepare(e, ws, w).engine.tokens, w.tokens);
    }
  }

  /** Exactly which steps keep the hash invariant. */
  lemma StepKeepsHash(e: SliceEngine, m: Sessions, op: Op)
    requires AllTrustworthy(m)
    ensures AllTrustworthy(StepOp(e, m, op)) <==> !LeavesStaleHash(e, m, op)
  {
    var m' := StepOp(e, m, op);
    match op
    case DoWork(w, ro, eo) =>
      if HashMetadataOk(w) {
        RunWorkTrust(e, Lookup(e, m, w.session), w, ro, eo);
        assert w.session in m' && m'[w.session] == RunWork(e, Lookup(e, m, w.session), w, ro, eo);
      }
    case LoadShard(id, tokens, hash, outcome) =>
    case ClearSessions =>
  }

  ghost predicate NeverLeavesStaleHash(e: SliceEngine, m: Sessions, ops: seq<Op>)
    decreases |ops|
  {
    ops == [] || (!LeavesStaleHash(e, m, ops[0]) && NeverLeavesStaleHash(e, StepOp(e, m, ops[0]), ops[1..]))
  }

  /** The hash invariant holds before, between and after all operations. */
  ghost predicate TrustworthyThroughout(e: SliceEngine, m: Sessions, ops: seq<Op>)
    decreases |ops|
  {
    AllTrustworthy(m) && (ops == [] || TrustworthyThroughout(e, StepOp(e, m, ops[0]), ops[1..]))
  }

  /** Exactly which runs keep the hash invariant throughout. */
  lemma {:induction false} RunKeepsHash(e: SliceEngine, m: Sessions, ops: seq<Op>)
    requires AllTrustworthy(m)
    ensures TrustworthyThroughout(e, m, ops) <==> NeverLeavesStaleHash(e, m, ops)
    ensures NeverLeavesStaleHash(e, m, ops) ==> AllTrustworthy(RunOps(e, m, ops))
    decreases |ops|
  {
    hide AllTrustworthy, StepOp, LeavesStaleHash;
    if ops != [] {
      StepKeepsHash(e, m, ops[0]);
      if LeavesStaleHash(e, m, ops[0]) {
        assert !TrustworthyThroughout(e, StepOp(e, m, ops[0]), ops[1..]);
      } else {
        RunKeepsHash(e, StepOp(e, m, ops[0]), ops[1..]);
      }
    }
  }

  /** The hashes of the one-token prompts 7 and 8 differ, so one of them is not the initial hash. */
  lemma OneTokenHashesAway()
    ensures HashPrefix([7]) != HASH_INIT || HashPrefix([8]) != HASH_INIT
  {
    assert TokenByte(7, 0) == 7 && TokenByte(8, 0) == 8;
    OneTokenByteDifferenceSurvives([], 7, 8, [], 0);
    assert [] + [7] + [] == [7] && [] + [8] + [] == [8];
  }

  function FirstFrame(t: int): Work {
    Work(1, 1, HASH_INIT, HashPrefix([t]), 0, [t], true, false, FromTokens)
  }

  /** A concrete run, one good frame and then the same frame with a failing reset, after which
      a valid stored hash is not the hash of the timeline. */
  lemma FailedResetLeavesStaleHash(e: SliceEngine, kv: Kv)
    ensures
      var w := FirstFrame(if HashPrefix([7]) != HASH_INIT then 7 else 8);
      var m1 := StepOp(e, map[], DoWork(w, ResetWorks, EvalWorks));
      var m2 := StepOp(e, m1, DoWork(w, ResetFails(kv), EvalWorks));
      AllTrustworthy(m1) && !AllTrustworthy(m2)
  {
    var t := if HashPrefix([7]) != HASH_INIT then 7 else 8;
    var op1, op2 := DoWork(FirstFrame(t), ResetWorks, EvalWorks), DoWork(FirstFrame(t), ResetFails(kv), EvalWorks);
    StepKeepsHash(e, map[], op1);
    var m1 := StepOp(e, map[], op1);
    assert m1[1].hash == HashPrefix([t]);
    OneTokenHashesAway();
    StepKeepsHash(e, m1, op2);
  }

  // ---------------------------------------------------------------- what holds on every run

  /** What is true even after failed resets: a stale hash only guards an invalid, empty checkpoint. */
  predicate Grounded(ws: WorkerSession) {
    Trustworthy(ws) || (!ws.engine.live && ws.engine.tokens == [])
  }

  ghost predicate AllGrounded(m: Sessions) {
    forall id :: id in m ==> Grounded(m[id])
  }

  /** Frames as coordinators build them: position 0 goes with the hash of the empty prefix. */
  predicate Coherent(w: Work) {
    w.pos0 == 0 ==> w.prefixHash == HASH_INIT
  }

  ghost predicate AllCoherent(ops: seq<Op>) {
    forall i :: 0 <= i < |ops| && ops[i].DoWork? ==> Coherent(ops[i].w)
  }

  /** A slice is evaluated on a timeline that hashes to the frame's prefix hash exactly when the frame resets the
      session or its stored hash was right.  In a grounded session the frames for which neither holds start at
      position 0 with a prefix hash other than that of the empty prefix, which no coordinator sends. */
  lemma EvaluatedOnRightPrefix(e: SliceEngine, ws: WorkerSession, w: Work, ro: ResetOutcome, eo: EvalOutcome)
    requires Evaluates(e, ws, w, ro, eo)
    ensures HashPrefix(Prepare(e, ws, w).engine.tokens) == w.prefixHash <==> w.reset || Trustworthy(ws)
    ensures Grounded(ws) && !w.reset && !Trustworthy(ws) ==> w.pos0 == 0 && w.prefixHash != HASH_INIT && !Coherent(w)
  {
    hide StepByte;
    assert HashPrefix([]) == HASH_INIT;
  }

  /** No slice is evaluated unless the timeline it extends hashes to the frame's prefix hash,
      and afterwards the timeline hashes to the frame's result hash. */
  lemma EvaluatedOnMatchingPrefix(e: SliceEngine, ws: WorkerSession, w: Work, ro: ResetOutcome, eo: EvalOutcome)
    requires Grounded(ws) && Coherent(w)
    requires Evaluates(e, ws, w, ro, eo)
    ensures HashPrefix(Prepare(e, ws, w).engine.tokens) == w.prefixHash
    ensures RunWork(e, ws, w, ro, eo).engine.tokens == Prepare(e, ws, w).engine.tokens + w.tokens
    ensures RunWork(e, ws, w, ro, eo).hash == w.resultHash == HashPrefix(RunWork(e, ws, w, ro, eo).engine.tokens)
  {
    assert HashPrefix([]) == HASH_INIT;
    HashSpanComposes(HASH_INIT, Prepare(e, ws, w).engine.tokens, w.tokens);
  }

  lemma RunWorkGrounded(e: SliceEngine, ws: WorkerSession, w: Work, ro: ResetOutcome, eo: EvalOutcome)
    requires Grounded(ws) && Coherent(w)
    ensures Grounded(RunWork(e, ws, w, ro, eo))
  {
    assert HashPrefix([]) == HASH_INIT;
    if Evaluates(e, ws, w, ro, eo) {
      EvaluatedOnMatchingPrefix(e, ws, w, ro, eo);
    }
  }

  /** Every run of coherent frames, loads and clears, failed resets included, keeps sessions grounded. */
  lemma {:induction false} RunStaysGrounded(e: SliceEngine, m: Sessions, ops: seq<Op>)
    requires AllGrounded(m) && AllCoherent(ops)
    ensures AllGrounded(RunOps(e, m, ops))
    decreases |ops|
  {
    if ops != [] {
      var op := ops[0];
      if op.DoWork? {
        RunWorkGrounded(e, Lookup(e, m, op.w.session), op.w, op.ro, op.eo);
      }
      assert AllCoherent(ops[1..]) by {
        forall i | 0 <= i < |ops[1..]| && ops[1..][i].DoWork? ensures Coherent(ops[1..][i].w) {
          assert ops[1..][i] == ops[i + 1];
        }
      }
      RunStaysGrounded(e, StepOp(e, m, op), ops[1..]);
    }
  }

  // ---------------------------------------------------------------- isolation

  predicate Touches(op: Op, id: U64) {
    match op
    case DoWork(w, _, _) => w.session == id
    case LoadShard(s, _, _, _) => s == id
    case ClearSessions => true
  }

  function OpsTouching(ops: seq<Op>, id: U64): seq<Op> {
    if ops == [] then []
    else (if Touches(ops[0], id) then [ops[0]] else []) + OpsTouching(ops[1..], id)
  }

  ghost predicate SameAt(a: Sessions, b: Sessions, id: U64) {
    (id in a <==> id in b) && (id in a ==> a[id] == b[id])
  }

  /** A session only depends on the operations that name it: all others can be struck from the run. */
  lemma {:induction false} SessionsAreIndependent(e: SliceEngine, a: Sessions, b: Sessions, ops: seq<Op>, id: U64)
    requires SameAt(a, b, id)
    ensures SameAt(RunOps(e, a, ops), RunOps(e, b, OpsTouching(ops, id)), id)
    decreases |ops|
  {
    if ops != [] {
      var rest := OpsTouching(ops[1..], id);
      if Touches(ops[0], id) {
        assert ([ops[0]] + rest)[1..] == rest;
        SessionsAreIndependent(e, StepOp(e, a, ops[0]), StepOp(e, b, ops[0]), ops[1..], id);
      } else {
        assert [] + rest == rest;
        SessionsAreIndependent(e, StepOp(e, a, ops[0]), b, ops[1..], id);
      }
    }
  }

  // ---------------------------------------------------------------- one session among many

  /** What an operation of any connection does to the session of one id. */
  function SessionStep(e: SliceEngine, ws: WorkerSession, id: U64, op: Op): WorkerSession {
    match op
    case DoWork(w, ro, eo) => if w.session == id && HashMetadataOk(w) then RunWork(e, ws, w, ro, eo) else ws
    case LoadShard(s, tokens, hash, outcome) => if s == id
      && HashPrefix(tokens) == hash then RunLoad(ws, tokens, hash, outcome) else ws
    case ClearSessions => FreshSession(e)
  }

  function SessionRun(e: SliceEngine, ws: WorkerSession, id: U64, ops: seq<Op>): WorkerSession
    decreases |ops|
  {
    if ops == [] then ws else SessionRun(e, SessionStep(e, ws, id, ops[0]), id, ops[1..])
  }

  /** The worker's map of sessions, seen at one id. */
  lemma {:induction false} SessionRunIsLookup(e: SliceEngine, m: Sessions, id: U64, ops: seq<Op>)
    ensures Lookup(e, RunOps(e, m, ops), id) == SessionRun(e, Lookup(e, m, id), id, ops)
    decreases |ops|
  {
    hide HashSpan, HashPrefix, RunWork, RunLoad;
    if ops != [] {
      SessionRunIsLookup(e, StepOp(e, m, ops[0]), id, ops[1..]);
    }
  }

  lemma {:induction false} SessionRunAppend(e: SliceEngine, ws: WorkerSession, id: U64, a: seq<Op>, b: seq<Op>)
    ensures SessionRun(e, ws, id, a + b) == SessionRun(e, SessionRun(e, ws, id, a), id, b)
    decreases |a|
  {
    hide SessionStep;
    if a == [] {
      assert [] + b == b;
    } else {
      assert (a + b)[1..] == a[1..] + b;
      SessionRunAppend(e, SessionStep(e, ws, id, a[0]), id, a[1..], b);
    }
  }

  lemma SessionStepGrounded(e: SliceEngine, ws: WorkerSession, id: U64, op: Op)
    requires Grounded(ws) && (op.DoWork? ==> Coherent(op.w))
    ensures Grounded(SessionStep(e, ws, id, op))
  {
    hide HashSpan, RunWork;
    if op.DoWork? { RunWorkGrounded(e, ws, op.w, op.ro, op.eo); }
  }

  /** Coherent operations of other connections leave a grounded session grounded. */
  lemma {:induction false} SessionRunGrounded(e: SliceEngine, ws: WorkerSession, id: U64, ops: seq<Op>)
    requires Grounded(ws) && AllCoherent(ops)
    ensures Grounded(SessionRun(e, ws, id, ops))
    decreases |ops|
  {
    hide SessionStep, Grounded, Coherent;
    if ops != [] {
      SessionStepGrounded(e, ws, id, ops[0]);
      assert AllCoherent(ops[1..]) by {
        assert forall i :: 0 <= i < |ops[1..]| ==> ops[1..][i] == ops[i + 1];
      }
      SessionRunGrounded(e, SessionStep(e, ws, id, ops[0]), id, ops[1..]);
    }
  }
}
