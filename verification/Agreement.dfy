/** Sync and decode of a distributed session: when a call that dispatched work returns 0, every hop of its route
    stood at the coordinator's timeline right after its last frame of the call. */
module Agreement {
  import opened Wire
  import opened TokenHash
  import opened Engine
  import opened WorkerSessions
  import opened Prefill
  import opened Pipeline
  import opened PipelineTheorems
  import opened PipelineCalls

  /** A worker session that stands exactly at a given token hash, and whose own timeline does too. */
  predicate StandsAt(ws: WorkerSession, hash: U64) {
    ws.hashValid && ws.hash == hash && HashPrefix(ws.engine.tokens) == hash
  }

  /** The coordinator holds the tokens, and every hop stands at their hash. */
  ghost predicate Agrees(cl: Cluster, tokens: seq<int>) {
    && cl.local.live && cl.local.tokens == tokens
    && forall h :: 0 <= h < |cl.hops| ==> StandsAt(cl.hops[h], HashPrefix(tokens))
  }

  /** What a worker's session must be before a frame without reset: a stale hash guards nothing. */
  ghost predicate AllHopsGrounded(cl: Cluster) {
    forall h :: 0 <= h < |cl.hops| ==> Grounded(cl.hops[h])
  }

  /** What other connections send are frames as coordinators build them, shards, and clears. */
  ghost predicate CoherentStrays(j: Job) {
    forall h: nat, i: nat :: AllCoherent(j.strays(h, i))
  }

  // ---------------------------------------------------------------- one span

  /** An evaluated frame leaves the session at the frame's result hash. */
  lemma EvaluatedStands(e: SliceEngine, ws: WorkerSession, w: Work)
    requires Evaluates(e, ws, w, ResetWorks, EvalWorks)
    requires Coherent(w) && (w.reset || Grounded(ws))
    ensures StandsAt(RunWork(e, ws, w, ResetWorks, EvalWorks), w.resultHash)
  {
    assert HashPrefix([]) == HASH_INIT;
    if w.reset {
      HashSpanComposes(HASH_INIT, [], w.tokens);
      assert [] + w.tokens == w.tokens;
    } else {
      EvaluatedOnMatchingPrefix(e, ws, w, ResetWorks, EvalWorks);
    }
  }

  lemma {:induction false} PassStands(j: Job, hops: seq<WorkerSession>, h: nat, i: nat, w: Work)
    requires ValidJob(j) && CoherentStrays(j) && |hops| == |j.hops| && h < |hops|
    requires PassThrough(j, hops, h, i, w).Some? && Coherent(w)
    requires forall k :: h <= k < |hops| ==> w.reset || Grounded(hops[k])
    ensures var r := PassThrough(j, hops, h, i, w).value.0;
      && (forall k :: 0 <= k < h ==> r[k] == hops[k])
      && (forall k :: h <= k < |hops| ==> StandsAt(r[k], w.resultHash))
    decreases |hops| - h
  {
    hide Evaluates, RunWork, SessionRun, Prepare, StandsAt, Grounded, AllCoherent;
    var e, ws := j.hops[h], Found(j, h, i, hops[h]);
    var hops' := hops[h := RunWork(e, ws, w, ResetWorks, EvalWorks)];
    if !w.reset { SessionRunGrounded(e, hops[h], j.session, j.strays(h, i)); }
    EvaluatedStands(e, ws, w);
    if h + 1 < |hops| {
      PassStands(j, hops', h + 1, i, Forwarded(j, e, Prepare(e, ws, w).engine, w));
    }
  }

  /** After a span that worked, everyone stands at the end of its chunk. */
  lemma SpanAgrees(j: Job, cl: Cluster, i: nat)
    requires ValidJob(j) && CoherentStrays(j) && |cl.hops| == |j.hops| && EvalSpan(j, cl, i).Some?
    requires (j.reset && i == 0) || (cl.local.tokens == j.prompt[..ChunkStart(j, i)] && AllHopsGrounded(cl))
    ensures Agrees(EvalSpan(j, cl, i).value.0, j.prompt[..ChunkStart(j, i + 1)])
  {
    hide HashSpan, HashPrefix, PassThrough, StandsAt, Grounded, ChunkStart, CoherentStrays;
    EmptyPrefix();
    ChunkExtendsPrompt(j, i);
    var local := cl.local;
    var ready := if j.reset && i == 0 then Reset(j.local, local, ResetWorks) else local;
    var prefix := SpanPrefix(j, local, i).value;
    ResetStartsAtZero(j, i);
    if !(j.reset && i == 0) { WholePrefix(j.prompt[..ChunkStart(j, i)]); }
    assert prefix == HashBefore(j, i);
    assert ready.tokens == j.prompt[..ChunkStart(j, i)];
    var w := SpanFrame(j, ready, prefix, i);
    assert Coherent(w) by { if w.pos0 == 0 { assert j.prompt[..ChunkStart(j, i)] == []; } }
    PassStands(j, cl.hops, 0, i, w);
  }

  lemma ResetStartsAtZero(j: Job, i: nat)
    requires ValidJob(j)
    ensures j.reset && i == 0 ==> ChunkStart(j, i) == 0 && j.prompt[..ChunkStart(j, i)] == []
  {
  }

  lemma AgreementIsGrounded(cl: Cluster, tokens: seq<int>)
    requires Agrees(cl, tokens)
    ensures AllHopsGrounded(cl)
  {
  }

  // ---------------------------------------------------------------- the whole loop

  lemma {:induction false} SpansAgree(j: Job, cl: Cluster, i: nat, logits: Logits)
    requires ValidJob(j) && CoherentStrays(j) && |cl.hops| == |j.hops| && i < Count(j)
    requires EvalSpans(j, cl, i, logits).Some?
    requires (j.reset && i == 0) || (cl.local.tokens == j.prompt[..ChunkStart(j, i)] && AllHopsGrounded(cl))
    ensures Agrees(EvalSpans(j, cl, i, logits).value.0, j.prompt[..j.end])
    decreases Count(j) - i
  {
    hide EvalSpan, Agrees, AllHopsGrounded, CoherentStrays;
    SpanAgrees(j, cl, i);
    var next := EvalSpan(j, cl, i).value;
    ChunksCover(j, i + 1);
    if i + 1 < Count(j) {
      AgreementIsGrounded(next.0, j.prompt[..ChunkStart(j, i + 1)]);
      LocalOf(next.0, j.prompt[..ChunkStart(j, i + 1)]);
      SpansAgree(j, next.0, i + 1, next.1);
    }
  }

  lemma LocalOf(cl: Cluster, tokens: seq<int>)
    requires Agrees(cl, tokens)
    ensures cl.local.tokens == tokens
  {
  }

  /** All spans of a prompt worked: everyone agrees on its end. */
  lemma AllSpansAgree(j: Job, cl: Cluster, logits: Logits)
    requires ValidJob(j) && CoherentStrays(j) && |cl.hops| == |j.hops| && EvalSpans(j, cl, 0, logits).Some?
    requires !j.reset ==> cl.local.tokens == j.prompt[..j.start] && AllHopsGrounded(cl)
    ensures Agrees(EvalSpans(j, cl, 0, logits).value.0, j.prompt[..j.end])
  {
    hide EvalSpans, Agrees, AllHopsGrounded, CoherentStrays;
    ChunksCover(j, 0);
    SpansAgree(j, cl, 0, logits);
  }

  // ---------------------------------------------------------------- a span with faults

  /** What happens to a frame at one hop: refused on the way in, or run with these engine outcomes. */
  datatype HopFate = HopFate(refused: bool, ro: ResetOutcome, eo: EvalOutcome)

  /** What comes back for a frame: the last hop's answer, a worker's error answer, or neither of them. */
  datatype Reply = ResultArrives | ErrorArrives | NothingArrives

  /** What happens to one span: locally, at each hop, on the way back, and in the local head. */
  datatype SpanFate = SpanFate(connected: bool, ro: ResetOutcome, eo: EvalOutcome, hops: seq<HopFate>, reply: Reply,
                               headWorks: bool)

  /** The return code of a span that was sent: 2 stands for a worker's error answer. */
  function ReplyCode(passed: bool, f: SpanFate): nat {
    if f.reply.NothingArrives? then 1
    else if !passed || f.reply.ErrorArrives? then 2
    else if !f.headWorks then 1
    else 0
  }

  /** Passes the i-th frame along the hops until one of them does not evaluate it; what the last one answers. */
  function PassFated(j: Job, hops: seq<WorkerSession>, h: nat, i: nat, w: Work,
                     fates: seq<HopFate>): (r: (Option<Payload>, seq<WorkerSession>))
    requires ValidJob(j) && |hops| == |j.hops| && h < |hops| <= |fates|
    ensures |r.1| == |hops| && (r.0.Some? && !w.ackOnly ==> !r.0.value.Ack?)
    decreases |hops| - h
  {
    var e, f, ws := j.hops[h], fates[h], Found(j, h, i, hops[h]);
    if f.refused then (None, hops[h := ws])
    else
      var hops' := hops[h := RunWork(e, ws, w, f.ro, f.eo)];
      var ready := Prepare(e, ws, w).engine;
      if !Evaluates(e, ws, w, f.ro, f.eo) then (None, hops')
      else if h + 1 == |hops| then (Some(LastPayload(j, ready, w)), hops')
      else PassFated(j, hops', h + 1, i, Forwarded(j, e, ready, w), fates)
  }

  lemma {:induction false} PassFatedIsPlain(j: Job, hops: seq<WorkerSession>, h: nat, i: nat, w: Work,
                                            fates: seq<HopFate>)
    requires ValidJob(j) && |hops| == |j.hops| && h < |hops| <= |fates|
    requires PassFated(j, hops, h, i, w, fates).0.Some?
    ensures var r := PassFated(j, hops, h, i, w, fates); PassThrough(j, hops, h, i, w) == Some((r.1, r.0.value))
    decreases |hops| - h
  {
    hide RunWork, SessionRun, Evaluates, Prepare;
    var e, f, ws := j.hops[h], fates[h], Found(j, h, i, hops[h]);
    OutcomesOfSuccess(e, ws, w, f.ro, f.eo);
    if h + 1 < |hops| {
      var hops' := hops[h := RunWork(e, ws, w, f.ro, f.eo)];
      PassFatedIsPlain(j, hops', h + 1, i, Forwarded(j, e, Prepare(e, ws, w).engine, w), fates);
    }
  }

  lemma OutcomesOfSuccess(e: SliceEngine, ws: WorkerSession, w: Work, ro: ResetOutcome, eo: EvalOutcome)
    requires Evaluates(e, ws, w, ro, eo)
    ensures Evaluates(e, ws, w, ResetWorks, EvalWorks)
    ensures RunWork(e, ws, w, ro, eo) == RunWork(e, ws, w, ResetWorks, EvalWorks)
  {
    hide HashSpan, HashPrefix;
  }

  /** One span with everything that can go wrong, in the order in which the coordinator runs into it: the return code,
      the cluster, and the logits, which stay what they were when the span fails. */
  function FatedSpan(j: Job, cl: Cluster, i: nat, f: SpanFate, last: Logits): (r: (nat, Cluster, Logits))
    requires ValidJob(j) && |cl.hops| == |j.hops| == |f.hops|
    ensures |r.1.hops| == |cl.hops|
  {
    var reset := j.reset && i == 0;
    var prefix := SpanPrefix(j, cl.local, i);
    if prefix.None? then (1, cl, last)
    else if reset && f.ro.ResetFails? then (1, cl.(local := Reset(j.local, cl.local, f.ro)), last)
    else
      var ready := if reset then Reset(j.local, cl.local, ResetWorks) else cl.local;
      if !f.connected then (1, cl.(local := ready), last)
      else
        var after := Eval(j.local, ready, Chunk(j, i), ChunkStart(j, i), FromTokens, f.eo);
        if !EvalSucceeds(ready, ChunkStart(j, i), f.eo) then (1, cl.(local := after), last)
        else
          var passed := PassFated(j, cl.hops, 0, i, SpanFrame(j, ready, prefix.value, i), f.hops);
          var code := ReplyCode(passed.0.Some?, f);
          (code, Cluster(after, passed.1), if code == 0 then FinalLogits(j, passed.0.value, |Chunk(j, i)|) else last)
  }

  /** A span that returns 0 did what the plain span does. */
  lemma FatedSpanIsPlain(j: Job, cl: Cluster, i: nat, f: SpanFate, last: Logits)
    requires ValidJob(j) && |cl.hops| == |j.hops| == |f.hops|
    requires FatedSpan(j, cl, i, f, last).0 == 0
    ensures var r := FatedSpan(j, cl, i, f, last); EvalSpan(j, cl, i) == Some((r.1, r.2))
  {
    hide PassThrough, PassFated, SpanPrefix, SpanFrame, Chunk, ChunkStart;
    var ready := if j.reset && i == 0 then Reset(j.local, cl.local, ResetWorks) else cl.local;
    PassFatedIsPlain(j, cl.hops, 0, i, SpanFrame(j, ready, SpanPrefix(j, cl.local, i).value, i), f.hops);
  }

  /** The coordinator's own part of a span worked, so that its frame was sent. */
  predicate Sent(j: Job, cl: Cluster, i: nat, f: SpanFate)
    requires ValidJob(j) && |cl.hops| == |j.hops|
  {
    var reset := j.reset && i == 0;
    var ready := if reset then Reset(j.local, cl.local, ResetWorks) else cl.local;
    && SpanPrefix(j, cl.local, i).Some? && (reset ==> f.ro.ResetWorks?) && f.connected
    && EvalSucceeds(ready, ChunkStart(j, i), f.eo)
  }

  /** What becomes of the frame that was sent. */
  function PassedOn(j: Job, cl: Cluster, i: nat, f: SpanFate): Option<Payload>
    requires ValidJob(j) && |cl.hops| == |j.hops| == |f.hops| && Sent(j, cl, i, f)
  {
    var ready := if j.reset && i == 0 then Reset(j.local, cl.local, ResetWorks) else cl.local;
    PassFated(j, cl.hops, 0, i, SpanFrame(j, ready, SpanPrefix(j, cl.local, i).value, i), f.hops).0
  }

  /** What the return code says: 0 when the result arrived and the head worked, 2 when a worker's error answer arrived,
      because some hop refused the frame or for a reason of its own, and 1 when nothing did, or nothing was sent. */
  lemma SpanCode(j: Job, cl: Cluster, i: nat, f: SpanFate, last: Logits)
    requires ValidJob(j) && |cl.hops| == |j.hops| == |f.hops|
    ensures var code := FatedSpan(j, cl, i, f, last).0;
      && code <= 2
      && (code == 0 <==> Sent(j, cl, i, f) && PassedOn(j, cl, i, f).Some? && f.reply.ResultArrives? && f.headWorks)
      && (code == 2 <==>
          Sent(j, cl, i, f) && !f.reply.NothingArrives? && (f.reply.ErrorArrives? || PassedOn(j, cl, i, f).None?))
  {
    hide PassFated, SpanPrefix, SpanFrame, Chunk, ChunkStart;
  }

  // ---------------------------------------------------------------- one attempt at a prefill

  /** Spans i, i+1, ... until one fails. */
  function FatedSpans(j: Job, cl: Cluster, i: nat, fates: seq<SpanFate>, last: Logits): (r: (nat, Cluster, Logits))
    requires ValidJob(j) && |cl.hops| == |j.hops| && |fates| == Count(j)
    requires forall i :: 0 <= i < |fates| ==> |fates[i].hops| == |j.hops|
    ensures |r.1.hops| == |j.hops|
    decreases Count(j) - i
  {
    if i >= Count(j) then (0, cl, last)
    else
      var r := FatedSpan(j, cl, i, fates[i], last);
      if r.0 != 0 then r else FatedSpans(j, r.1, i + 1, fates, r.2)
  }

  /** The code does not depend on the logits that were there before. */
  lemma {:induction false} SameCode(j: Job, cl: Cluster, i: nat, fates: seq<SpanFate>, a: Logits, b: Logits)
    requires ValidJob(j) && |cl.hops| == |j.hops| && |fates| == Count(j)
    requires forall i :: 0 <= i < |fates| ==> |fates[i].hops| == |j.hops|
    ensures FatedSpans(j, cl, i, fates, a).0 == FatedSpans(j, cl, i, fates, b).0
    decreases Count(j) - i
  {
    hide PassFated, SpanPrefix, SpanFrame, Chunk, ChunkStart;
    if i < Count(j) {
      SameCode(j, FatedSpan(j, cl, i, fates[i], a).1, i + 1, fates, FatedSpan(j, cl, i, fates[i], a).2,
               FatedSpan(j, cl, i, fates[i], b).2);
    }
  }

  /** The direct loop: span after span until one fails. */
  method DirectAttempt(j: Job, cl0: Cluster, fates: seq<SpanFate>, logits0: Logits)
    returns (rc: nat, cl: Cluster, logits: Logits)
    requires ValidJob(j) && |cl0.hops| == |j.hops|
    requires |fates| == Count(j) && forall i :: 0 <= i < |fates| ==> |fates[i].hops| == |j.hops|
    ensures |cl.hops| == |j.hops| && (rc, cl, logits) == FatedSpans(j, cl0, 0, fates, logits0)
    ensures rc == 0 ==> EvalSpans(j, cl0, 0, logits0) == Some((cl, logits))
  {
    hide EvalSpan, FatedSpan;
    cl, logits := cl0, logits0;
    var i := 0;
    while i < Count(j)
      invariant 0 <= i <= Count(j) && |cl.hops| == |j.hops|
      invariant EvalSpans(j, cl, i, logits) == EvalSpans(j, cl0, 0, logits0)
      invariant FatedSpans(j, cl, i, fates, logits) == FatedSpans(j, cl0, 0, fates, logits0)
    {
      var r := FatedSpan(j, cl, i, fates[i], logits);
      if r.0 != 0 {
        return r.0, r.1, r.2;
      }
      FatedSpanIsPlain(j, cl, i, fates[i], logits);
      cl, logits := r.1, r.2;
      i := i + 1;
    }
    rc := 0;
  }

  /** Everything the world decides about one attempt: what other connections do to the sessions meanwhile, the fate
      of every span of the direct loop, and the interleaving, faults included, of a pipelined prefill. */
  datatype Attempt = Attempt(strays: (nat, nat) -> seq<Op>, fates: seq<SpanFate>, lim: Limits, run: seq<Action>,
                             headWorks: bool)

  /** The return code of a pipelined prefill: the reader's if it failed, else 1 for any other failure. */
  function PipelineCode(s: State, a: Attempt): nat {
    if Succeeded(s) then if a.headWorks then 0 else 1
    else if EndsInRemoteError(s) then 2 else 1
  }

  // ---------------------------------------------------------------- what other connections do afterwards

  /** The frames that leave a session standing at a hash: those whose metadata is bad, those that neither reset nor
      start at the hash, and those that are evaluated and end at it again.  (At the hash of the empty timeline a
      reset that goes no further does no harm either.) */
  predicate FrameSpares(e: SliceEngine, ws: WorkerSession, w: Work, ro: ResetOutcome, eo: EvalOutcome, hash: U64) {
    || !HashMetadataOk(w)
    || (!w.reset && w.prefixHash != hash)
    || (w.resultHash == hash && Evaluates(e, ws, w, ro, eo))
    || (hash == HASH_INIT && w.reset && (ro.ResetFails? || w.prefixHash != HASH_INIT))
  }

  /** The operations of other connections that leave a session standing at a hash. */
  predicate Spares(e: SliceEngine, ws: WorkerSession, id: U64, op: Op, hash: U64) {
    match op
    case DoWork(w, ro, eo) => w.session != id || FrameSpares(e, ws, w, ro, eo, hash)
    case LoadShard(s, tokens, h, outcome) => s != id || HashPrefix(tokens) != h || (outcome.LoadWorks? && h == hash)
    case ClearSessions => false
  }

  /** Which left-over frames of an earlier call disturb a session that everyone agrees on, for every frame. */
  lemma LeftOverFrame(e: SliceEngine, ws: WorkerSession, w: Work, ro: ResetOutcome, eo: EvalOutcome, hash: U64)
    requires StandsAt(ws, hash)
    ensures StandsAt(RunWork(e, ws, w, ro, eo), hash) <==> FrameSpares(e, ws, w, ro, eo, hash)
  {
    hide HashSpan;
    EmptyPrefix();
    if Evaluates(e, ws, w, ro, eo) {
      HashSpanComposes(HASH_INIT, Prepare(e, ws, w).engine.tokens, w.tokens);
    }
  }

  /** And which operation of any other connection does. */
  lemma StraySpares(e: SliceEngine, ws: WorkerSession, id: U64, op: Op, hash: U64)
    requires StandsAt(ws, hash)
    ensures StandsAt(SessionStep(e, ws, id, op), hash) <==> Spares(e, ws, id, op, hash)
  {
    hide HashSpan, RunWork, FrameSpares;
    if op.DoWork? {
      LeftOverFrame(e, ws, op.w, op.ro, op.eo, hash);
      if !HashMetadataOk(op.w) { BadMetadataSpares(e, ws, op.w, op.ro, op.eo, hash); }
    }
  }

  lemma BadMetadataSpares(e: SliceEngine, ws: WorkerSession, w: Work, ro: ResetOutcome, eo: EvalOutcome, hash: U64)
    requires !HashMetadataOk(w)
    ensures FrameSpares(e, ws, w, ro, eo, hash)
  {
  }

  /** The session stands at the hash before, between and after all operations. */
  ghost predicate StandsThroughout(e: SliceEngine, ws: WorkerSession, id: U64, ops: seq<Op>, hash: U64)
    decreases |ops|
  {
    StandsAt(ws, hash) && (ops == [] || StandsThroughout(e, SessionStep(e, ws, id, ops[0]), id, ops[1..], hash))
  }

  ghost predicate AllSpare(e: SliceEngine, ws: WorkerSession, id: U64, ops: seq<Op>, hash: U64)
    decreases |ops|
  {
    ops == [] || (Spares(e, ws, id, ops[0], hash) && AllSpare(e, SessionStep(e, ws, id, ops[0]), id, ops[1..], hash))
  }

  /** A session that stood at a hash keeps standing there exactly when every operation since spares it. */
  lemma {:induction false} StandsUnlessDisturbed(e: SliceEngine, ws: WorkerSession, id: U64, ops: seq<Op>, hash: U64)
    requires StandsAt(ws, hash)
    ensures StandsThroughout(e, ws, id, ops, hash) <==> AllSpare(e, ws, id, ops, hash)
    ensures AllSpare(e, ws, id, ops, hash) ==> StandsAt(SessionRun(e, ws, id, ops), hash)
    decreases |ops|
  {
    hide StandsAt, Spares, SessionStep;
    if ops != [] {
      StraySpares(e, ws, id, ops[0], hash);
      if Spares(e, ws, id, ops[0], hash) {
        StandsUnlessDisturbed(e, SessionStep(e, ws, id, ops[0]), id, ops[1..], hash);
      } else if ops[1..] != [] {
        assert !StandsThroughout(e, SessionStep(e, ws, id, ops[0]), id, ops[1..], hash);
      }
    }
  }

  /** The frames that bring a session to a hash it does not stand at: those that are evaluated on a timeline with their
      prefix hash and end there, and those that stop short but make the stored hash that of the timeline: a reset
      to the empty timeline, or a frame that has an invalidated hash recomputed. */
  predicate FrameBrings(e: SliceEngine, ws: WorkerSession, w: Work, ro: ResetOutcome, eo: EvalOutcome, hash: U64) {
    && HashMetadataOk(w)
    && if w.reset && ro.ResetFails? then ws.hashValid && ws.hash == hash == HASH_INIT
       else
         var ready := Prepare(e, ws, w);
         if ready.hash != w.prefixHash then
           if w.reset then hash == HASH_INIT else !ws.hashValid && HashPrefix(ws.engine.tokens) == hash
         else
           EvalSucceeds(ready.engine, w.pos0, eo) && w.resultHash == hash
             && HashPrefix(ready.engine.tokens) == w.prefixHash
  }

  /** The operations of other connections that bring a session to a hash it does not stand at. */
  predicate Brings(e: SliceEngine, ws: WorkerSession, id: U64, op: Op, hash: U64) {
    match op
    case DoWork(w, ro, eo) => w.session == id && FrameBrings(e, ws, w, ro, eo, hash)
    case LoadShard(s, tokens, h, outcome) => s == id && HashPrefix(tokens) == h == hash && outcome.LoadWorks?
    case ClearSessions => false
  }

  /** Which frames bring a session to a hash, for every frame and every session. */
  lemma FrameBringsBack(e: SliceEngine, ws: WorkerSession, w: Work, ro: ResetOutcome, eo: EvalOutcome, hash: U64)
    requires !StandsAt(ws, hash)
    ensures StandsAt(RunWork(e, ws, w, ro, eo), hash) <==> FrameBrings(e, ws, w, ro, eo, hash)
  {
    hide HashSpan;
    EmptyPrefix();
    if Evaluates(e, ws, w, ro, eo) {
      var tokens := Prepare(e, ws, w).engine.tokens;
      HashSpanComposes(HASH_INIT, tokens, w.tokens);
      HashNeverHeals(HashPrefix(tokens), w.prefixHash, w.tokens);
    }
  }

  /** And which operations of any other connection do. */
  lemma StrayBrings(e: SliceEngine, ws: WorkerSession, id: U64, op: Op, hash: U64)
    requires !StandsAt(ws, hash)
    ensures StandsAt(SessionStep(e, ws, id, op), hash) <==> Brings(e, ws, id, op, hash)
  {
    hide HashSpan, RunWork, FrameBrings;
    if op.DoWork? {
      FrameBringsBack(e, ws, op.w, op.ro, op.eo, hash);
      if !HashMetadataOk(op.w) { BadMetadataBringsNothing(e, ws, op.w, op.ro, op.eo, hash); }
    } else if op.ClearSessions? {
      FreshStandsNowhere(e, hash);
    }
  }

  lemma BadMetadataBringsNothing(e: SliceEngine, ws: WorkerSession, w: Work, ro: ResetOutcome, eo: EvalOutcome,
                                 hash: U64)
    requires !HashMetadataOk(w)
    ensures !FrameBrings(e, ws, w, ro, eo, hash)
  {
  }

  lemma FreshStandsNowhere(e: SliceEngine, hash: U64)
    ensures !StandsAt(FreshSession(e), hash)
  {
  }

  /** Whether a session ends at a hash, judged by the guards alone: while it is there every operation has to spare it,
      and while it is not some operation has to bring it there. */
  predicate EndsAt(e: SliceEngine, ws: WorkerSession, id: U64, ops: seq<Op>, hash: U64, there: bool)
    decreases |ops|
  {
    if ops == [] then there
    else
      var after := if there then Spares(e, ws, id, ops[0], hash) else Brings(e, ws, id, ops[0], hash);
      EndsAt(e, SessionStep(e, ws, id, ops[0]), id, ops[1..], hash, after)
  }

  /** The guards decide, over any operations of any connections, where a session ends. */
  lemma {:induction false} GuardsDecide(e: SliceEngine, ws: WorkerSession, id: U64, ops: seq<Op>, hash: U64)
    ensures StandsAt(SessionRun(e, ws, id, ops), hash) <==> EndsAt(e, ws, id, ops, hash, StandsAt(ws, hash))
    decreases |ops|
  {
    hide StandsAt, Spares, Brings, SessionStep;
    if ops != [] {
      if StandsAt(ws, hash) {
        StraySpares(e, ws, id, ops[0], hash);
      } else {
        StrayBrings(e, ws, id, ops[0], hash);
      }
      GuardsDecide(e, SessionStep(e, ws, id, ops[0]), id, ops[1..], hash);
    }
  }

  // ---------------------------------------------------------------- agreement when the call returns

  /** The cluster when a call returns: after each hop's last frame of the call other connections may have gone on. */
  function AtReturn(j: Job, cl: Cluster): (r: Cluster)
    requires ValidJob(j) && |cl.hops| == |j.hops|
    ensures |r.hops| == |cl.hops|
  {
    cl.(hops := seq(|cl.hops|, h requires 0 <= h < |cl.hops| => Found(j, h, Count(j), cl.hops[h])))
  }

  /** Hop h ends where it was after its last frame: what reaches it until the call returns spares it, or brings it
      back. */
  predicate Keeps(j: Job, cl: Cluster, tokens: seq<int>, h: nat)
    requires ValidJob(j) && |cl.hops| == |j.hops| && h < |cl.hops|
  {
    EndsAt(j.hops[h], cl.hops[h], j.session, j.strays(h, Count(j)), HashPrefix(tokens), true)
  }

  /** Everything that reaches hop h after its last frame spares it. */
  ghost predicate Spared(j: Job, cl: Cluster, tokens: seq<int>, h: nat)
    requires ValidJob(j) && |cl.hops| == |j.hops| && h < |cl.hops|
  {
    AllSpare(j.hops[h], cl.hops[h], j.session, j.strays(h, Count(j)), HashPrefix(tokens))
  }

  /** If everyone stood at the tokens after their last frames, everyone still does when the call returns if and only if
      the guards say so for the operations that reached each hop since; in particular if all of them spare it. */
  lemma AgreementAtReturn(j: Job, cl: Cluster, tokens: seq<int>)
    requires ValidJob(j) && |cl.hops| == |j.hops| && Agrees(cl, tokens)
    ensures Agrees(AtReturn(j, cl), tokens) <==> forall h :: 0 <= h < |cl.hops| ==> Keeps(j, cl, tokens, h)
    ensures forall h :: 0 <= h < |cl.hops| && Spared(j, cl, tokens, h) ==> Keeps(j, cl, tokens, h)
  {
    hide StandsAt, HashPrefix, SessionRun, EndsAt, AllSpare;
    var hash := HashPrefix(tokens);
    forall h | 0 <= h < |cl.hops|
      ensures StandsAt(AtReturn(j, cl).hops[h], hash) <==> Keeps(j, cl, tokens, h)
      ensures Spared(j, cl, tokens, h) ==> Keeps(j, cl, tokens, h)
    {
      var ops := j.strays(h, Count(j));
      GuardsDecide(j.hops[h], cl.hops[h], j.session, ops, hash);
      StandsUnlessDisturbed(j.hops[h], cl.hops[h], j.session, ops, hash);
    }
  }

  /** A frame that disturbs exists: the reset frame of the first token of a two-token prompt. */
  lemma LeftOverResetDisturbs(e: SliceEngine, kv: Kv)
    ensures exists u :: var hash := HashPrefix([7, u]);
      var ws := WorkerSession(EngineSession([7, u], true, kv), hash, true);
      StandsAt(ws, hash) && !StandsAt(RunWork(e, ws, FirstFrame(7), ResetWorks, EvalWorks), hash)
  {
    hide HashPrefix, HashSpan;
    assert TokenByte(7, 0) == 7 && TokenByte(8, 0) == 8;
    OneTokenByteDifferenceSurvives([7], 7, 8, [], 0);
    assert [7] + [7] + [] == [7, 7] && [7] + [8] + [] == [7, 8];
    var u := if HashPrefix([7, 7]) != HashPrefix([7]) then 7 else 8;
    var hash := HashPrefix([7, u]);
    var ws := WorkerSession(EngineSession([7, u], true, kv), hash, true);
    FirstFrameRuns(e, ws, 7);
    assert StandsAt(ws, hash) && !StandsAt(RunWork(e, ws, FirstFrame(7), ResetWorks, EvalWorks), hash);
  }

  lemma FirstFrameRuns(e: SliceEngine, ws: WorkerSession, t: int)
    ensures RunWork(e, ws, FirstFrame(t), ResetWorks, EvalWorks).hash == HashPrefix([t])
  {
    hide HashSpan;
  }

  // ---------------------------------------------------------------- a call that returns 0 without agreement

  /** The one-token prompt 7, sent with a reset over a route of one hop. */
  function OneTokenJob(e: SliceEngine, wire: Hidden -> Hidden, head: (Hidden, nat) -> Logits,
                       strays: (nat, nat) -> seq<Op>): Job {
    Job(e, [e], wire, head, true, [7], 0, 1, 1, true, false, 0, 0, 1, [HASH_INIT, HashPrefix([7])], strays)
  }

  /** What an abandoned prefill of the prompt 7, u has left behind: the frame of its second chunk. */
  function SecondFrame(u: int, input: Input): Work {
    Work(0, 1, HashPrefix([7]), HashSpan(HashPrefix([7]), [u]), 1, [u], false, false, input)
  }

  lemma OneTokenChunks(j: Job, e: SliceEngine, wire: Hidden -> Hidden, head: (Hidden, nat) -> Logits)
    requires j == OneTokenJob(e, wire, head, j.strays)
    ensures ValidJob(j) && Precomputed(j) && Count(j) == 1
    ensures ChunkStart(j, 0) == 0 && ChunkStart(j, 1) == 1 && Chunk(j, 0) == [7]
  {
    hide HashSpan, HashPrefix;
    EmptyPrefix();
    assert ChunkStart(j, 1) == 1;
    assert j.prompt[..0] == [] && j.prompt[..1] == [7];
  }

  lemma ResetFrameWorks(e: SliceEngine, ws: WorkerSession, w: Work)
    requires w.reset && w.prefixHash == HASH_INIT && w.pos0 == 0 && HashMetadataOk(w)
    ensures Evaluates(e, ws, w, ResetWorks, EvalWorks)
    ensures RunWork(e, ws, w, ResetWorks, EvalWorks).engine.tokens == w.tokens
    ensures RunWork(e, ws, w, ResetWorks, EvalWorks).engine.live
  {
    hide HashSpan, HashPrefix;
    assert [] + w.tokens == w.tokens;
  }

  lemma OneTokenSpan(j: Job, e: SliceEngine, wire: Hidden -> Hidden, head: (Hidden, nat) -> Logits, cl: Cluster)
    requires j == OneTokenJob(e, wire, head, j.strays) && |cl.hops| == 1
    ensures ValidJob(j) && EvalSpan(j, cl, 0).Some?
    ensures EvalSpan(j, cl, 0).value.0.hops[0].engine.tokens == [7] && EvalSpan(j, cl, 0).value.0.hops[0].engine.live
  {
    hide HashSpan, HashPrefix, Found, ChunkStart, Chunk, Count, Precomputed, Evaluates, RunWork, Prepare, LastPayload,
         FinalLogits;
    OneTokenChunks(j, e, wire, head);
    var w := SpanFrame(j, Reset(j.local, cl.local, ResetWorks), HASH_INIT, 0);
    ResetFrameWorks(e, Found(j, 0, 0, cl.hops[0]), w);
    assert SpanPrefix(j, cl.local, 0) == Some(HASH_INIT);
  }

  lemma OnlySpan(j: Job, cl: Cluster, logits: Logits)
    requires ValidJob(j) && |cl.hops| == |j.hops| && Count(j) == 1
    ensures EvalSpans(j, cl, 0, logits) == EvalSpan(j, cl, 0)
  {
    hide EvalSpan, Count;
    var r := EvalSpan(j, cl, 0);
    if r.Some? { assert EvalSpans(j, r.value.0, 1, r.value.1) == r; }
  }

  lemma OneTokenWorks(j: Job, e: SliceEngine, wire: Hidden -> Hidden, head: (Hidden, nat) -> Logits, cl: Cluster,
                      logits: Logits)
    requires j == OneTokenJob(e, wire, head, j.strays) && |cl.hops| == 1
    ensures ValidJob(j) && Precomputed(j) && Count(j) == 1
    ensures EvalSpans(j, cl, 0, logits) == EvalSpan(j, cl, 0) && EvalSpan(j, cl, 0).Some?
    ensures EvalSpan(j, cl, 0).value.0.hops[0].engine.tokens == [7] && EvalSpan(j, cl, 0).value.0.hops[0].engine.live
  {
    hide EvalSpan, EvalSpans, Count, Precomputed, HashPrefix;
    OneTokenChunks(j, e, wire, head);
    OneTokenSpan(j, e, wire, head, cl);
    OnlySpan(j, cl, logits);
  }

  /** Agreement when the call returns can fail.  An abandoned prefill of 7, u left the frame of its second chunk
      queued at the only hop; the next call sends the prompt 7, the hop evaluates it, and then, before the call
      returns, takes the old frame over the old connection.  The call returns 0, pipelined or not, and the hop
      stands at 7, u. */
  lemma LeftOverFrameDisturbs(e: SliceEngine, wire: Hidden -> Hidden, head: (Hidden, nat) -> Logits, input: Input,
                              cl: Cluster, lim: Limits, logits: Logits)
    returns (j: Job, run: seq<Action>)
    requires |cl.hops| == 1 && ValidLimits(lim)
    ensures ValidJob(j) && |j.hops| == 1 && CoherentStrays(j)
    ensures Completes(j, cl, true, lim, run) && Succeeded(After(j, Start(cl, true), run))
    ensures EvalSpans(j, cl, 0, logits).Some?
    ensures EvalSpans(j, cl, 0, logits).value.0 == ClusterOf(After(j, Start(cl, true), run))
    ensures Agrees(ClusterOf(After(j, Start(cl, true), run)), [7])
    ensures !Agrees(AtReturn(j, ClusterOf(After(j, Start(cl, true), run))), [7])
  {
    hide HashPrefix, HashSpan, EvalSpans, EvalSpan, After, Start, Completes, Succeeded, Precomputed, Agrees;
    assert TokenByte(7, 0) == 7 && TokenByte(8, 0) == 8;
    OneTokenByteDifferenceSurvives([7], 7, 8, [], 0);
    assert [7] + [7] + [] == [7, 7] && [7] + [8] + [] == [7, 8];
    var u := if HashPrefix([7, 7]) != HashPrefix([7]) then 7 else 8;
    var op := DoWork(SecondFrame(u, input), ResetWorks, EvalWorks);
    j := OneTokenJob(e, wire, head, (h, i) => if h == 0 && i == 1 then [op] else []);
    OneTokenStrays(j, op);
    OneTokenWorks(j, e, wire, head, cl, logits);
    run := SucceedingRun(j, lim, cl, logits);
    PipelinedIsPlain(j, cl, true, lim, run, logits);
    AllSpansAgree(j, cl, logits);
    var reached := ClusterOf(After(j, Start(cl, true), run));
    assert j.prompt[..j.end] == [7];
    SecondFrameDisturbs(j, reached, u, op);
  }

  lemma OneTokenStrays(j: Job, op: Op)
    requires op.DoWork? && Coherent(op.w) && forall h: nat, i: nat ::
      j.strays(h, i) == if h == 0 && i == 1 then [op] else []
    ensures CoherentStrays(j)
  {
  }

  lemma SecondFrameDisturbs(j: Job, cl: Cluster, u: int, op: Op)
    requires ValidJob(j) && |j.hops| == |cl.hops| == 1 && Count(j) == 1 && j.session == 0
    requires op.DoWork? && op.w == SecondFrame(u, op.w.input) && op.ro.ResetWorks? && op.eo.EvalWorks?
    requires j.strays(0, 1) == [op]
    requires Agrees(cl, [7]) && cl.hops[0].engine.live && cl.hops[0].engine.tokens == [7]
    requires HashPrefix([7, u]) != HashPrefix([7])
    ensures !Agrees(AtReturn(j, cl), [7])
  {
    hide HashPrefix, HashSpan, Spares, SessionStep, SecondFrame, SessionRun, Count;
    SpanOfPrefix(u);
    OneStray(j.hops[0], cl.hops[0], 0, op);
    StraySpares(j.hops[0], cl.hops[0], 0, op, HashPrefix([7]));
    SecondFrameRuns(j.hops[0], cl.hops[0], u, op);
    assert AtReturn(j, cl).hops[0] == SessionStep(j.hops[0], cl.hops[0], 0, op);
  }

  lemma SpanOfPrefix(u: int)
    ensures HashSpan(HashPrefix([7]), [u]) == HashPrefix([7, u])
  {
    HashSpanComposes(HASH_INIT, [7], [u]);
    assert [7] + [u] == [7, u];
  }

  lemma OneStray(e: SliceEngine, ws: WorkerSession, id: U64, op: Op)
    ensures SessionRun(e, ws, id, [op]) == SessionStep(e, ws, id, op)
  {
    hide SessionStep;
    assert [op][1..] == [];
  }

  lemma SecondFrameRuns(e: SliceEngine, ws: WorkerSession, u: int, op: Op)
    requires StandsAt(ws, HashPrefix([7])) && ws.engine.live && ws.engine.tokens == [7]
    requires op.DoWork? && op.w == SecondFrame(u, op.w.input) && op.ro.ResetWorks? && op.eo.EvalWorks?
    requires HashSpan(HashPrefix([7]), [u]) != HashPrefix([7])
    ensures !Spares(e, ws, 0, op, HashPrefix([7]))
  {
    hide HashPrefix, HashSpan;
  }
}
