/** Calls whose sessions other connections leave alone while the call needs them: every check on their way passes, so
    they can succeed. */
module QuietCalls {
  import opened Wire
  import opened TokenHash
  import opened Engine
  import opened WorkerSessions
  import opened Prefill
  import opened Pipeline
  import opened PipelineSafety
  import opened PipelineTheorems
  import opened PipelineFaultFree
  import opened PipelineCalls

  /** An operation that does nothing to a session that stands at a hash: work or a shard for another session, work or a
      shard whose hashes do not fit together, and work without a reset that starts elsewhere. */
  predicate LeavesAlone(id: U64, op: Op, hash: U64) {
    match op
    case DoWork(w, _, _) => w.session != id || !HashMetadataOk(w) || (!w.reset && w.prefixHash != hash)
    case LoadShard(s, tokens, h, _) => s != id || HashPrefix(tokens) != h
    case ClearSessions => false
  }

  ghost predicate AllLeaveAlone(id: U64, ops: seq<Op>, hash: U64) {
    forall k :: 0 <= k < |ops| ==> LeavesAlone(id, ops[k], hash)
  }

  /** Between its frames every hop is left alone; what happens before a reset does not matter. */
  ghost predicate Quiet(j: Job) {
    forall h: nat, i: nat ::
      h < |j.hops| && i < j.count && !(j.reset && i == 0) ==> AllLeaveAlone(j.session, j.strays(h, i), HashAt(j, i))
  }

  /** An engine session that holds the prompt up to the start of chunk i. */
  predicate Holds(j: Job, s: EngineSession, i: nat)
    requires ValidJob(j)
  {
    s.live && s.tokens == j.prompt[..ChunkStart(j, i)]
  }

  predicate HopHolds(j: Job, ws: WorkerSession, i: nat)
    requires ValidJob(j)
  {
    Holds(j, ws.engine, i) && ws.hashValid && ws.hash == HashAt(j, i)
  }

  /** A call that resets may start from anything, another one starts where everyone holds the prompt already. */
  ghost predicate InPlace(j: Job, cl: Cluster)
    requires ValidJob(j)
  {
    j.reset || (Holds(j, cl.local, 0) && forall h :: 0 <= h < |cl.hops| ==> HopHolds(j, cl.hops[h], 0))
  }

  lemma AloneStays(e: SliceEngine, ws: WorkerSession, id: U64, op: Op)
    requires ws.hashValid && LeavesAlone(id, op, ws.hash)
    ensures SessionStep(e, ws, id, op) == ws
  {
  }

  lemma {:induction false} AllAloneStays(e: SliceEngine, ws: WorkerSession, id: U64, ops: seq<Op>)
    requires ws.hashValid && AllLeaveAlone(id, ops, ws.hash)
    ensures SessionRun(e, ws, id, ops) == ws
    decreases |ops|
  {
    hide SessionStep, LeavesAlone;
    if ops != [] {
      AloneStays(e, ws, id, ops[0]);
      AllAloneStays(e, ws, id, ops[1..]);
    }
  }

  lemma ChunkFits(j: Job, i: nat)
    requires ValidJob(j)
    ensures |j.prompt[..ChunkStart(j, i)]| == ChunkStart(j, i)
    ensures j.prompt[..ChunkStart(j, i)] + Chunk(j, i) == j.prompt[..ChunkStart(j, i + 1)]
  {
    hide HashSpan, HashPrefix;
    ChunkExtendsPrompt(j, i);
  }

  lemma LocalHolds(j: Job, cl: Cluster, i: nat)
    requires ValidJob(j) && InPlace(j, cl) && !(j.reset && i == 0)
    ensures Holds(j, LocalAt(j, cl, i), i)
    decreases i
  {
    if i > 0 {
      ChunkFits(j, i - 1);
      if !(j.reset && i == 1) { LocalHolds(j, cl, i - 1); }
    }
  }

  /** Between its frames every hop holds the prompt so far, with its hash. */
  lemma {:induction false} HopAtHolds(j: Job, cl: Cluster, h: nat, i: nat)
    requires ValidJob(j) && Quiet(j) && InPlace(j, cl) && |cl.hops| == |j.hops| && h < |j.hops|
    requires i <= j.count && !(j.reset && i == 0)
    ensures HopHolds(j, HopAt(j, cl, h, i), i)
    decreases i, 0
  {
    hide ChunkStart, Chunk, Quiet, HashAt, HopFound, FrameAt;
    if i > 0 {
      ChunkFits(j, i - 1);
      if !(j.reset && i == 1) {
        HopFoundHolds(j, cl, h, i - 1);
      } else {
        ResetStart(j);
      }
    }
  }

  lemma ResetStart(j: Job)
    requires ValidJob(j) && j.reset
    ensures j.prompt[..ChunkStart(j, 0)] == []
  {
  }

  lemma {:induction false} HopFoundHolds(j: Job, cl: Cluster, h: nat, i: nat)
    requires ValidJob(j) && Quiet(j) && InPlace(j, cl) && |cl.hops| == |j.hops| && h < |j.hops|
    requires i < j.count && !(j.reset && i == 0)
    ensures HopFound(j, cl, h, i) == HopAt(j, cl, h, i) && HopHolds(j, HopAt(j, cl, h, i), i)
    decreases i, 1
  {
    hide ChunkStart, HopAt, SessionRun, AllLeaveAlone;
    HopAtHolds(j, cl, h, i);
    AllAloneStays(j.hops[h], HopAt(j, cl, h, i), j.session, j.strays(h, i));
  }

  /** Every check of the plain loop passes. */
  lemma QuietIsAccepted(j: Job, cl: Cluster)
    requires ValidJob(j) && Precomputed(j) && Quiet(j) && InPlace(j, cl) && |cl.hops| == |j.hops|
    ensures AllAccept(j, cl)
  {
    hide Quiet, InPlace, LocalAccepts, Accepts, ChunkStart;
    forall i | 0 <= i < j.count ensures LocalAccepts(j, cl, i) {
      QuietLocally(j, cl, i);
    }
    forall h, i | 0 <= h < |j.hops| && 0 <= i < j.count ensures Accepts(j, cl, h, i) {
      QuietAtHop(j, cl, h, i);
    }
  }

  lemma QuietLocally(j: Job, cl: Cluster, i: nat)
    requires ValidJob(j) && InPlace(j, cl)
    ensures LocalAccepts(j, cl, i)
  {
    hide LocalAt;
    ChunkFits(j, i);
    if !(j.reset && i == 0) { LocalHolds(j, cl, i); }
  }

  lemma QuietAtHop(j: Job, cl: Cluster, h: nat, i: nat)
    requires ValidJob(j) && Precomputed(j) && Quiet(j) && InPlace(j, cl) && |cl.hops| == |j.hops| && h < |j.hops|
    requires i < j.count
    ensures Accepts(j, cl, h, i)
  {
    hide Quiet, InPlace, HopAt, HopFound, HiddenInto, HashSpan, Chunk;
    ChunkFits(j, i);
    ChunkExtendsPrompt(j, i);
    if j.reset && i == 0 {
      ResetStart(j);
      EmptyPrefix();
    } else {
      HopFoundHolds(j, cl, h, i);
    }
  }

  /** A call that is left alone can succeed if and only if its first socket is up. */
  lemma QuietCallCanSucceed(j: Job, lim: Limits, cl: Cluster, up: bool)
    requires ValidJob(j) && Precomputed(j) && Quiet(j) && InPlace(j, cl) && ValidLimits(lim) && |cl.hops| == |j.hops|
    ensures (exists run :: Completes(j, cl, up, lim, run) && Succeeded(After(j, Start(cl, up), run))) <==> up
  {
    hide Quiet, InPlace, Accepts, LocalAccepts, EvalSpans, Completes, Succeeded, After, Start, Precomputed, ClusterAt;
    var logits: Logits := *;
    assert j.count > 0 by { ChunkCount(j); }
    QuietIsAccepted(j, cl);
    StartsInPlace(j, cl);
    TableStart(j, cl);
    PlainSpans(j, cl, 0, logits);
    SomeRunSucceedsIff(j, lim, cl, up, logits);
  }

  lemma ChunkCount(j: Job)
    requires ValidJob(j) && Precomputed(j)
    ensures j.count > 0
  {
    ChunksCover(j, 0);
  }

  lemma StartsInPlace(j: Job, cl: Cluster)
    requires ValidJob(j) && InPlace(j, cl)
    ensures !j.reset ==> cl.local.tokens == j.prompt[..j.start]
  {
  }
}
