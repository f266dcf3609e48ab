/** Prompt chunks, the frames that carry them, and the plain chunk-by-chunk prefill loop. */
module Prefill {
  import opened Wire
  import opened TokenHash
  import opened Engine
  import opened WorkerSessions

  /** One prefill call: the route's engines, the prompt span, and the tunable limits. */
  datatype Job = Job(
    local: SliceEngine,          // the coordinator's own slice
    hops: seq<SliceEngine>,      // the remote slices, in route order
    wire: Hidden -> Hidden,      // what transport rounding does to a hidden state
    head: (Hidden, nat) -> Logits, // the coordinator's output head
    lastHasOutput: bool,         // whether the last hop owns the output head
    prompt: seq<int>,
    start: nat,
    end: nat,
    cap: nat,                    // tokens per chunk
    reset: bool,                 // reset every session with the first chunk
    ackOnly: bool,               // intermediate chunks only return an ACK
    session: U64,
    firstRequest: nat,
    count: nat,                  // the number of chunks, computed before the loop starts
    hashes: seq<U64>,            // the precomputed hash of the prompt before each chunk, and after the last
    strays: (nat, nat) -> seq<Op>) // what other connections do to hop h's session before it takes its i-th frame

  predicate ValidJob(j: Job) {
    && |j.hops| >= 1
    && j.start < j.end <= |j.prompt|
    && j.cap >= 1
    && (j.reset ==> j.start == 0)
  }

  /** How many chunks cover the span: its length over the chunk size, rounded up. */
  function Count(j: Job): nat
    requires ValidJob(j)
  {
    (j.end - j.start + j.cap - 1) / j.cap
  }

  /** Where chunk i starts: every chunk takes the chunk size or what is left of the span. */
  function ChunkStart(j: Job, i: nat): (pos: nat)
    requires ValidJob(j)
    ensures j.start <= pos <= j.end
  {
    if i == 0 then j.start
    else
      var p := ChunkStart(j, i - 1);
      if j.end - p < j.cap then j.end else p + j.cap
  }

  function Chunk(j: Job, i: nat): seq<int>
    requires ValidJob(j)
  {
    j.prompt[ChunkStart(j, i)..ChunkStart(j, i + 1)]
  }

  lemma {:induction false} ChunkStartIsClamped(j: Job, i: nat)
    requires ValidJob(j)
    ensures ChunkStart(j, i) == if j.start + i * j.cap < j.end then j.start + i * j.cap else j.end
  {
    if i > 0 {
      ChunkStartIsClamped(j, i - 1);
      assert i * j.cap == (i - 1) * j.cap + j.cap;
    }
  }

  /** Every chunk before Count starts inside the span and Count chunks end exactly at its end. */
  lemma ChunksCover(j: Job, i: nat)
    requires ValidJob(j)
    ensures i < Count(j) <==> ChunkStart(j, i) < j.end
    ensures Count(j) >= 1
  {
    ChunkStartIsClamped(j, i);
    RoundsUp(j.end - j.start, j.cap);
    if i < Count(j) { Monotone(i, Count(j) - 1, j.cap); } else { Monotone(Count(j), i, j.cap); }
  }

  lemma RoundsUp(len: nat, cap: nat)
    requires len >= 1 && cap >= 1
    ensures var n := (len + cap - 1) / cap; n >= 1 && (n - 1) * cap < len <= n * cap
  {
    var x := len + cap - 1;
    Quotient(x, cap);
    assert (x / cap - 1) * cap == x / cap * cap - cap;
  }

  lemma Quotient(x: nat, d: nat)
    requires d >= 1
    ensures x == x / d * d + x % d && (x >= d ==> x / d >= 1)
  {
  }

  lemma Monotone(a: nat, b: nat, c: nat)
    requires a <= b
    ensures a * c <= b * c
  {
  }

  /** The hash of the prompt up to the start of chunk i. */
  function HashBefore(j: Job, i: nat): U64
    requires ValidJob(j)
  {
    HashPrefix(j.prompt[..ChunkStart(j, i)])
  }

  /** The precomputed hash before chunk i. */
  function HashAt(j: Job, i: nat): U64 {
    if i < |j.hashes| then j.hashes[i] else 0
  }

  /** What the producer precomputes before it starts the other threads. */
  ghost predicate Precomputed(j: Job)
    requires ValidJob(j)
  {
    j.count == Count(j) && |j.hashes| == Count(j) + 1 && forall i ::
      0 <= i <= Count(j) ==> j.hashes[i] == HashBefore(j, i)
  }

  lemma ChunkExtendsPrompt(j: Job, i: nat)
    requires ValidJob(j)
    ensures j.prompt[..ChunkStart(j, i)] + Chunk(j, i) == j.prompt[..ChunkStart(j, i + 1)]
    ensures HashSpan(HashBefore(j, i), Chunk(j, i)) == HashBefore(j, i + 1)
  {
    HashSpanComposes(HASH_INIT, j.prompt[..ChunkStart(j, i)], Chunk(j, i));
  }

  /** The loop that precomputes the hash before each chunk and after the last one: entry i + 1
      is what the result of chunk i must carry, the hash of the prompt up to the end of chunk i. */
  method ExpectedHashes(j: Job) returns (hashes: seq<U64>)
    requires ValidJob(j)
    ensures Precomputed(j.(count := Count(j), hashes := hashes))
  {
    hide HashPrefix, HashSpan;
    var hash := HashPrefixLoop(j.prompt[..j.start]);
    hashes := [hash];
    var i, pos := 0, j.start;
    while i < Count(j)
      invariant 0 <= i <= Count(j)
      invariant pos == ChunkStart(j, i)
      invariant hash == HashBefore(j, i)
      invariant |hashes| == i + 1 && forall k :: 0 <= k <= i ==> hashes[k] == HashBefore(j, k)
    {
      ChunkExtendsPrompt(j, i);
      var remaining := j.end - pos;
      var chunk := if remaining < j.cap then remaining else j.cap;
      assert j.prompt[pos..pos + chunk] == Chunk(j, i);
      hash := HashSpanLoop(hash, j.prompt[pos..pos + chunk]);
      hashes := hashes + [hash];
      pos := pos + chunk;
      i := i + 1;
    }
    SameHashes(j, j.(count := Count(j), hashes := hashes));
  }

  lemma {:induction false} SameChunkStart(j: Job, k: Job, i: nat)
    requires ValidJob(j) && k == j.(count := k.count, hashes := k.hashes)
    ensures ChunkStart(k, i) == ChunkStart(j, i)
  {
    if i > 0 {
      SameChunkStart(j, k, i - 1);
    }
  }

  lemma SameHashes(j: Job, k: Job)
    requires ValidJob(j) && k == j.(count := k.count, hashes := k.hashes)
    ensures forall i: nat :: HashBefore(k, i) == HashBefore(j, i)
  {
    forall i: nat ensures HashBefore(k, i) == HashBefore(j, i) {
      SameChunkStart(j, k, i);
    }
  }

  /** The frame that carries chunk i, given the hidden state that goes with it. */
  function FrameOf(j: Job, i: nat, hidden: Hidden): Work
    requires ValidJob(j)
  {
    Work(j.session, j.firstRequest + i, HashAt(j, i), HashAt(j, i + 1), ChunkStart(j, i),
         Chunk(j, i), j.reset && i == 0, j.ackOnly && i + 1 < j.count, FromHidden(j.wire(hidden)))
  }

  datatype Payload = Ack | LogitsOf(logits: Logits) | HiddenOf(hidden: Hidden)

  /** What the last hop returns for a frame it evaluated from session state `ready`. */
  function LastPayload(j: Job, ready: EngineSession, w: Work): Payload
    requires |j.hops| >= 1
  {
    var e := j.hops[|j.hops| - 1];
    if w.ackOnly then Ack
    else if j.lastHasOutput then LogitsOf(e.logitsOut(ready.kv, w.tokens, w.pos0, w.input))
    else HiddenOf(j.wire(e.hiddenOut(ready.kv, w.tokens, w.pos0, w.input)))
  }

  /** The logits the coordinator ends up with: returned, or computed by its own head. */
  function FinalLogits(j: Job, p: Payload, nTokens: nat): Logits
    requires !p.Ack?
  {
    match p
    case LogitsOf(l) => l
    case HiddenOf(h) => j.head(h, nTokens)
  }

  // ---------------------------------------------------------------- other connections

  /** Hop h's session as its i-th frame finds it.  Between two frames of this call any connection may reach the
      session, which is found by its id alone, or clear all sessions. */
  function Found(j: Job, h: nat, i: nat, ws: WorkerSession): WorkerSession
    requires h < |j.hops|
  {
    SessionRun(j.hops[h], ws, j.session, j.strays(h, i))
  }

  // ---------------------------------------------------------------- the plain loop

  datatype Cluster = Cluster(local: EngineSession, hops: seq<WorkerSession>)

  /** Passes the i-th frame through hops h, h+1, ...; none if some hop refuses it. */
  function PassThrough(j: Job, hops: seq<WorkerSession>, h: nat, i: nat,
                       w: Work): (r: Option<(seq<WorkerSession>, Payload)>)
    requires ValidJob(j) && |hops| == |j.hops| && h < |hops|
    ensures r.Some? ==> |r.value.0| == |hops| && (!w.ackOnly ==> !r.value.1.Ack?)
    decreases |hops| - h
  {
    var e, ws := j.hops[h], Found(j, h, i, hops[h]);
    if !Evaluates(e, ws, w, ResetWorks, EvalWorks) then None
    else
      var ready := Prepare(e, ws, w).engine;
      var hops' := hops[h := RunWork(e, ws, w, ResetWorks, EvalWorks)];
      if h + 1 == |hops| then Some((hops', LastPayload(j, ready, w)))
      else PassThrough(j, hops', h + 1, i, Forwarded(j, e, ready, w))
  }

  /** The frame a hop sends on: the same frame around its own, transport-rounded, hidden state. */
  function Forwarded(j: Job, e: SliceEngine, ready: EngineSession, w: Work): Work {
    w.(input := FromHidden(j.wire(e.hiddenOut(ready.kv, w.tokens, w.pos0, w.input))))
  }

  /** The prefix hash of a span: of the coordinator's own timeline, none if that is too short. */
  function SpanPrefix(j: Job, local: EngineSession, i: nat): Option<U64>
    requires ValidJob(j)
  {
    if j.reset && i == 0 then Some(HASH_INIT)
    else if |local.tokens| < ChunkStart(j, i) then None
    else Some(HashPrefix(local.tokens[..ChunkStart(j, i)]))
  }

  /** The frame of a span around the hidden state that the local slice computes from `ready`. */
  function SpanFrame(j: Job, ready: EngineSession, prefix: U64, i: nat): Work
    requires ValidJob(j)
  {
    var hidden := j.local.hiddenOut(ready.kv, Chunk(j, i), ChunkStart(j, i), FromTokens);
    Work(j.session, j.firstRequest + i, prefix, HashSpan(prefix, Chunk(j, i)), ChunkStart(j, i),
         Chunk(j, i), j.reset && i == 0, false, FromHidden(j.wire(hidden)))
  }

  /** One span of the plain loop: local slice, then every hop, then the logits. */
  function EvalSpan(j: Job, cl: Cluster, i: nat): (r: Option<(Cluster, Logits)>)
    requires ValidJob(j) && |cl.hops| == |j.hops|
    ensures r.Some? ==> |r.value.0.hops| == |j.hops|
  {
    var ready := if j.reset && i == 0 then Reset(j.local, cl.local, ResetWorks) else cl.local;
    if SpanPrefix(j, cl.local, i).None? || !TimelineAdmits(ready, ChunkStart(j, i)) then None
    else
      var passed := PassThrough(j, cl.hops, 0, i, SpanFrame(j, ready, SpanPrefix(j, cl.local, i).value, i));
      if passed.None? then None
      else
        Some((Cluster(Extend(j.local, ready, Chunk(j, i), ChunkStart(j, i), FromTokens), passed.value.0),
              FinalLogits(j, passed.value.1, |Chunk(j, i)|)))
  }

  /** Chunks i, i+1, ... of the plain loop, from the logits of the chunk before. */
  function EvalSpans(j: Job, cl: Cluster, i: nat, last: Logits): (r: Option<(Cluster, Logits)>)
    requires ValidJob(j) && |cl.hops| == |j.hops|
    ensures r.Some? ==> |r.value.0.hops| == |j.hops|
    decreases Count(j) - i
  {
    if i >= Count(j) then Some((cl, last))
    else
      var r := EvalSpan(j, cl, i);
      if r.None? then None else EvalSpans(j, r.value.0, i + 1, r.value.1)
  }

  /** A reset forgets: what the sessions held before its frame does not reach what comes of it. */
  lemma {:induction false} ResetPass(j: Job, a: seq<WorkerSession>, b: seq<WorkerSession>, h: nat, w: Work)
    requires ValidJob(j) && |a| == |b| == |j.hops| && h < |a| && a[..h] == b[..h] && w.reset
    ensures PassThrough(j, a, h, 0, w) == PassThrough(j, b, h, 0, w)
    decreases |a| - h
  {
    hide SessionRun, HashSpan, HashPrefix;
    var e, x, y := j.hops[h], Found(j, h, 0, a[h]), Found(j, h, 0, b[h]);
    ResetRun(e, x, y, w);
    var a', b' := a[h := RunWork(e, x, w, ResetWorks, EvalWorks)], b[h := RunWork(e, y, w, ResetWorks, EvalWorks)];
    if Evaluates(e, x, w, ResetWorks, EvalWorks) {
      assert a'[..h + 1]
        == b'[..h + 1] by { assert a[..h] + [a'[h]] == a'[..h + 1] && b[..h] + [b'[h]] == b'[..h + 1]; }
      if h + 1 < |a| {
        ResetPass(j, a', b', h + 1, Forwarded(j, e, Prepare(e, x, w).engine, w));
      } else {
        assert a' == a'[..h + 1] && b' == b'[..h + 1];
      }
    }
  }

  lemma ResetRun(e: SliceEngine, x: WorkerSession, y: WorkerSession, w: Work)
    requires w.reset
    ensures Prepare(e, x, w) == Prepare(e, y, w)
    ensures Evaluates(e, x, w, ResetWorks, EvalWorks) == Evaluates(e, y, w, ResetWorks, EvalWorks)
    ensures Evaluates(e, x, w, ResetWorks, EvalWorks) ==>
      RunWork(e, x, w, ResetWorks, EvalWorks) == RunWork(e, y, w, ResetWorks, EvalWorks)
  {
    hide HashSpan, HashPrefix;
  }

  /** So a call that resets computes the same from every state of the cluster. */
  lemma ResetForgets(j: Job, a: Cluster, b: Cluster, x: Logits, y: Logits)
    requires ValidJob(j) && |a.hops| == |b.hops| == |j.hops| && (j.reset || a == b)
    ensures EvalSpans(j, a, 0, x) == EvalSpans(j, b, 0, y)
  {
    hide PassThrough, HashSpan, HashPrefix, ChunkStart, Chunk;
    ChunksCover(j, 0);
    if j.reset { ResetPass(j, a.hops, b.hops, 0, SpanFrame(j, Reset(j.local, a.local, ResetWorks), HASH_INIT, 0)); }
    assert EvalSpan(j, a, 0) == EvalSpan(j, b, 0);
  }

  /** The plain loop of dist_coordinator_prefill_prompt, and of the direct suffix path of sync. */
  method PlainPrefill(j: Job, cl0: Cluster, logits0: Logits) returns (r: Option<(Cluster, Logits)>)
    requires ValidJob(j) && |cl0.hops| == |j.hops|
    ensures r == EvalSpans(j, cl0, 0, logits0)
  {
    hide EvalSpan;
    var cl, logits := cl0, logits0;
    var i, pos := 0, j.start;
    while pos < j.end
      invariant 0 <= i <= Count(j) && pos == ChunkStart(j, i)
      invariant |cl.hops| == |j.hops|
      invariant EvalSpans(j, cl, i, logits) == EvalSpans(j, cl0, 0, logits0)
      decreases Count(j) - i
    {
      ChunksCover(j, i);
      var span := EvalSpan(j, cl, i);
      if span.None? {
        return None;
      }
      cl, logits := span.value.0, span.value.1;
      pos := pos + if j.end - pos < j.cap then j.end - pos else j.cap;
      i := i + 1;
    }
    ChunksCover(j, i);
    r := Some((cl, logits));
  }

  // ---------------------------------------------------------------- the table of states

  /** The coordinator's session right before chunk i is evaluated locally. */
  function LocalReady(j: Job, cl: Cluster, i: nat): EngineSession
    requires ValidJob(j)
    decreases i, 1
  {
    if j.reset && i == 0 then Reset(j.local, cl.local, ResetWorks) else LocalAt(j, cl, i)
  }

  /** The coordinator's session after i chunks. */
  function LocalAt(j: Job, cl: Cluster, i: nat): EngineSession
    requires ValidJob(j)
    decreases i, 0
  {
    if i == 0 then cl.local
    else Extend(j.local, LocalReady(j, cl, i - 1), Chunk(j, i - 1), ChunkStart(j, i - 1), FromTokens)
  }

  /** Hop h's session right after its first i frames. */
  function HopAt(j: Job, cl: Cluster, h: nat, i: nat): WorkerSession
    requires ValidJob(j) && |cl.hops| == |j.hops| && h < |j.hops|
    decreases i, h, 0
  {
    if i == 0 then cl.hops[h]
    else WorkerSession(Extend(j.hops[h], HopReady(j, cl, h, i - 1), Chunk(j, i - 1), ChunkStart(j, i - 1),
                              FrameAt(j, cl, h, i - 1).input),
                       HashAt(j, i), true)
  }

  /** Hop h's engine session right before chunk i is evaluated there. */
  function HopReady(j: Job, cl: Cluster, h: nat, i: nat): EngineSession
    requires ValidJob(j) && |cl.hops| == |j.hops| && h < |j.hops|
    decreases i, h, 2
  {
    if j.reset && i == 0 then Reset(j.hops[h], HopFound(j, cl, h, i).engine, ResetWorks)
      else HopFound(j, cl, h, i).engine
  }

  /** Hop h's session as chunk i finds it. */
  function HopFound(j: Job, cl: Cluster, h: nat, i: nat): WorkerSession
    requires ValidJob(j) && |cl.hops| == |j.hops| && h < |j.hops|
    decreases i, h, 1
  {
    Found(j, h, i, HopAt(j, cl, h, i))
  }

  /** The hidden state that enters hop h with chunk i (h == |hops|: what leaves the last hop). */
  function HiddenInto(j: Job, cl: Cluster, h: nat, i: nat): Hidden
    requires ValidJob(j) && |cl.hops| == |j.hops| && h <= |j.hops|
    decreases i, h, 3
  {
    if h == 0 then
      j.local.hiddenOut(LocalReady(j, cl, i).kv, Chunk(j, i), ChunkStart(j, i), FromTokens)
    else
      j.hops[h - 1].hiddenOut(HopReady(j, cl, h - 1, i).kv, Chunk(j, i), ChunkStart(j, i),
                              FrameAt(j, cl, h - 1, i).input)
  }

  /** The frame that reaches hop h with chunk i. */
  function FrameAt(j: Job, cl: Cluster, h: nat, i: nat): Work
    requires ValidJob(j) && |cl.hops| == |j.hops| && h <= |j.hops|
    decreases i, h, 4
  {
    FrameOf(j, i, HiddenInto(j, cl, h, i))
  }

  /** What the last hop returns for chunk i. */
  function PayloadAt(j: Job, cl: Cluster, i: nat): Payload
    requires ValidJob(j) && |cl.hops| == |j.hops|
  {
    var h := |j.hops| - 1;
    LastPayload(j, HopReady(j, cl, h, i), FrameAt(j, cl, h, i))
  }
}
