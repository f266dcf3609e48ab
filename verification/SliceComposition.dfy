/** Where a model is cut into slices does not matter.  Two neighbouring slices that are replaced by one which computes
    the first and then, from the hidden state that the first hands over, the second, give the same logits and the
    same KV state; and it does not matter on which side the output head runs. */
module SliceComposition {
  import opened Wire
  import opened TokenHash
  import opened Engine
  import opened WorkerSessions
  import opened Prefill

  /** Engine e runs a, sends a's hidden state through the wire, and runs b on what arrives.  Its KV state holds both. */
  ghost predicate Composes(e: SliceEngine, a: SliceEngine, b: SliceEngine, wire: Hidden -> Hidden,
                           first: Kv -> Kv, second: Kv -> Kv) {
    && first(e.emptyKv) == a.emptyKv && second(e.emptyKv) == b.emptyKv
    && forall kv, tokens, pos0: nat, input :: ComposesAt(e, a, b, wire, first, second, kv, tokens, pos0, input)
  }

  ghost predicate ComposesAt(e: SliceEngine, a: SliceEngine, b: SliceEngine, wire: Hidden -> Hidden,
                             first: Kv -> Kv, second: Kv -> Kv, kv: Kv, tokens: seq<int>, pos0: nat, input: Input) {
    var handed := FromHidden(wire(a.hiddenOut(first(kv), tokens, pos0, input)));
    && first(e.stepKv(kv, tokens, pos0, input)) == a.stepKv(first(kv), tokens, pos0, input)
    && second(e.stepKv(kv, tokens, pos0, input)) == b.stepKv(second(kv), tokens, pos0, handed)
    && e.hiddenOut(kv, tokens, pos0, input) == b.hiddenOut(second(kv), tokens, pos0, handed)
    && e.logitsOut(kv, tokens, pos0, input) == b.logitsOut(second(kv), tokens, pos0, handed)
  }

  /** A cut: where it is made, the two slices that result, and their shares of the KV state. */
  datatype Cut = Cut(at: nat, a: SliceEngine, b: SliceEngine, first: Kv -> Kv, second: Kv -> Kv)

  function EngineShare(s: EngineSession, share: Kv -> Kv): EngineSession {
    s.(kv := share(s.kv))
  }

  function Share(ws: WorkerSession, share: Kv -> Kv): WorkerSession {
    ws.(engine := EngineShare(ws.engine, share))
  }

  // ---------------------------------------------------------------- a cut between two hops

  /** Hop c.at is one slice, nobody else reaches its session, and the cut slices make it up. */
  ghost predicate Cuts(j: Job, c: Cut) {
    && ValidJob(j) && c.at < |j.hops| && (forall i: nat :: j.strays(c.at, i) == [])
    && Composes(j.hops[c.at], c.a, c.b, j.wire, c.first, c.second)
  }

  /** The job over the longer route. */
  function CutJob(j: Job, c: Cut): Job
    requires c.at < |j.hops|
  {
    j.(hops := j.hops[..c.at] + [c.a, c.b] + j.hops[c.at + 1..],
       strays := (h: nat, i: nat) => if h <= c.at then j.strays(h, i) else if h == c.at + 1 then []
         else j.strays(h - 1, i))
  }

  function CutHops(hops: seq<WorkerSession>, c: Cut): (r: seq<WorkerSession>)
    requires c.at < |hops|
    ensures |r| == |hops| + 1
  {
    hops[..c.at] + [Share(hops[c.at], c.first), Share(hops[c.at], c.second)] + hops[c.at + 1..]
  }

  function CutCluster(cl: Cluster, c: Cut): (r: Cluster)
    requires c.at < |cl.hops|
    ensures |r.hops| == |cl.hops| + 1
  {
    cl.(hops := CutHops(cl.hops, c))
  }

  function CutPassed(r: Option<(seq<WorkerSession>, Payload)>, n: nat, c: Cut): Option<(seq<WorkerSession>, Payload)>
    requires c.at < n && (r.Some? ==> |r.value.0| == n)
  {
    if r.None? then None else Some((CutHops(r.value.0, c), r.value.1))
  }

  function CutResult(r: Option<(Cluster, Logits)>, n: nat, c: Cut): Option<(Cluster, Logits)>
    requires c.at < n && (r.Some? ==> |r.value.0.hops| == n)
  {
    if r.None? then None else Some((CutCluster(r.value.0, c), r.value.1))
  }

  lemma CutKeepsJob(j: Job, c: Cut)
    requires Cuts(j, c)
    ensures ValidJob(CutJob(j, c)) && Count(CutJob(j, c)) == Count(j)
    ensures forall i: nat :: ChunkStart(CutJob(j, c), i) == ChunkStart(j, i) && Chunk(CutJob(j, c), i) == Chunk(j, i)
  {
    hide Composes;
    forall i: nat ensures ChunkStart(CutJob(j, c), i) == ChunkStart(j, i) {
      ChunkStartIsClamped(j, i);
      ChunkStartIsClamped(CutJob(j, c), i);
    }
  }

  /** Both halves of a cut slice take a frame exactly if the whole slice does, with their shares of its outcome. */
  lemma HalvesRun(e: SliceEngine, c: Cut, wire: Hidden -> Hidden, ws: WorkerSession, w: Work)
    requires Composes(e, c.a, c.b, wire, c.first, c.second)
    ensures var wa, wb := Share(ws, c.first), Share(ws, c.second);
      var ready, ra, rb := Prepare(e, ws, w).engine, Prepare(c.a, wa, w).engine, Prepare(c.b, wb, w).engine;
      var w' := w.(input := FromHidden(wire(c.a.hiddenOut(ra.kv, w.tokens, w.pos0, w.input))));
      && Evaluates(e, ws, w, ResetWorks, EvalWorks) == Evaluates(c.a, wa, w, ResetWorks, EvalWorks)
                                                    == Evaluates(c.b, wb, w', ResetWorks, EvalWorks)
      && Prepare(c.b, wb, w').engine == rb
      && e.hiddenOut(ready.kv, w.tokens, w.pos0, w.input) == c.b.hiddenOut(rb.kv, w.tokens, w.pos0, w'.input)
      && e.logitsOut(ready.kv, w.tokens, w.pos0, w.input) == c.b.logitsOut(rb.kv, w.tokens, w.pos0, w'.input)
      && (Evaluates(e, ws, w, ResetWorks, EvalWorks) ==>
            && Share(RunWork(e, ws, w, ResetWorks, EvalWorks), c.first) == RunWork(c.a, wa, w, ResetWorks, EvalWorks)
            && Share(RunWork(e, ws, w, ResetWorks, EvalWorks), c.second) == RunWork(c.b, wb, w', ResetWorks, EvalWorks))
  {
    hide HashSpan, HashPrefix;
    var ready := Prepare(e, ws, w).engine;
    assert ComposesAt(e, c.a, c.b, wire, c.first, c.second, ready.kv, w.tokens, w.pos0, w.input);
  }

  lemma CutFront(j: Job, hops: seq<WorkerSession>, h: nat, i: nat, c: Cut, x: WorkerSession)
    requires Cuts(j, c) && |hops| == |j.hops| && h < c.at
    ensures var long := CutJob(j, c);
      && long.hops[h] == j.hops[h] && CutHops(hops, c)[h] == hops[h] && long.strays(h, i) == j.strays(h, i)
      && CutHops(hops[h := x], c) == CutHops(hops, c)[h := x]
  {
    hide Composes;
  }

  lemma CutBack(j: Job, hops: seq<WorkerSession>, h: nat, i: nat, c: Cut, x: WorkerSession)
    requires Cuts(j, c) && |hops| == |j.hops| && c.at < h < |hops|
    ensures var long := CutJob(j, c);
      && long.hops[h + 1] == j.hops[h] && CutHops(hops, c)[h + 1] == hops[h] && long.strays(h + 1, i) == j.strays(h, i)
      && CutHops(hops[h := x], c) == CutHops(hops, c)[h + 1 := x]
  {
    hide Composes, CutHops;
    CutHopsBack(hops, h, c, x);
    Shifted(j.hops, c.at, [c.a, c.b], h, j.hops[h]);
  }

  lemma CutHopsBack(hops: seq<WorkerSession>, h: nat, c: Cut, x: WorkerSession)
    requires c.at < h < |hops|
    ensures CutHops(hops, c)[h + 1] == hops[h] && CutHops(hops[h := x], c) == CutHops(hops, c)[h + 1 := x]
  {
    hide Share;
    Shifted(hops, c.at, [Share(hops[c.at], c.first), Share(hops[c.at], c.second)], h, x);
  }

  lemma Shifted<T>(s: seq<T>, p: nat, pair: seq<T>, h: nat, x: T)
    requires p < h < |s| && |pair| == 2
    ensures (s[..p] + pair + s[p + 1..])[h + 1] == s[h]
    ensures s[h := x][..p] + pair + s[h := x][p + 1..] == (s[..p] + pair + s[p + 1..])[h + 1 := x]
  {
  }

  lemma CutMiddle(j: Job, hops: seq<WorkerSession>, i: nat, c: Cut, x: WorkerSession)
    requires Cuts(j, c) && |hops| == |j.hops|
    ensures var long := CutJob(j, c);
      && long.hops[c.at] == c.a && long.hops[c.at + 1] == c.b && long.strays(c.at, i) == long.strays(c.at + 1, i) == []
      && CutHops(hops, c)[c.at] == Share(hops[c.at], c.first)
        && CutHops(hops, c)[c.at + 1] == Share(hops[c.at], c.second)
      && CutHops(hops[c.at := x], c) == CutHops(hops, c)[c.at := Share(x, c.first)][c.at + 1 := Share(x, c.second)]
  {
    hide Composes;
  }

  /** A frame that passes through the shorter route passes through the longer one, and the other way around. */
  lemma {:induction false} CutPass(j: Job, hops: seq<WorkerSession>, h: nat, i: nat, w: Work, c: Cut)
    requires Cuts(j, c) && |hops| == |j.hops| && h < |hops|
    ensures var long := CutJob(j, c);
      ValidJob(long) && PassThrough(long, CutHops(hops, c), if h <= c.at then h else h + 1, i, w)
        == CutPassed(PassThrough(j, hops, h, i, w), |hops|, c)
    decreases |hops| - h
  {
    hide Composes, Evaluates, RunWork, Prepare, CutHops, CutJob, Share, SessionRun;
    CutKeepsJob(j, c);
    CutSizes(j, hops, c);
    var long := CutJob(j, c);
    var e, ws := j.hops[h], Found(j, h, i, hops[h]);
    var x := RunWork(e, ws, w, ResetWorks, EvalWorks);
    if h < c.at {
      CutFront(j, hops, h, i, c, x);
      if Evaluates(e, ws, w, ResetWorks, EvalWorks) {
        CutPass(j, hops[h := x], h + 1, i, Forwarded(j, e, Prepare(e, ws, w).engine, w), c);
      }
    } else if h == c.at {
      CutAt(j, hops, i, w, c);
      if Evaluates(e, ws, w, ResetWorks, EvalWorks) && h + 1 < |hops| {
        CutPass(j, hops[h := x], h + 1, i, Forwarded(j, e, Prepare(e, ws, w).engine, w), c);
      }
    } else {
      CutBack(j, hops, h, i, c, x);
      if Evaluates(e, ws, w, ResetWorks, EvalWorks) && h + 1 < |hops| {
        CutPass(j, hops[h := x], h + 1, i, Forwarded(j, e, Prepare(e, ws, w).engine, w), c);
      }
    }
  }

  lemma CutSizes(j: Job, hops: seq<WorkerSession>, c: Cut)
    requires Cuts(j, c) && |hops| == |j.hops|
    ensures var long := CutJob(j, c);
      && |long.hops| == |j.hops| + 1 && long.wire == j.wire && long.lastHasOutput == j.lastHasOutput
      && (c.at + 1 < |j.hops| ==> long.hops[|j.hops|] == j.hops[|j.hops| - 1])
      && long.session == j.session
  {
    hide Composes;
  }

  lemma NoStray(e: SliceEngine, ws: WorkerSession, id: U64)
    ensures SessionRun(e, ws, id, []) == ws
  {
  }

  /** At the cut: the two halves one after the other do what the whole slice does. */
  lemma CutAt(j: Job, hops: seq<WorkerSession>, i: nat, w: Work, c: Cut)
    requires Cuts(j, c) && |hops| == |j.hops|
    ensures ValidJob(CutJob(j, c)) && |CutJob(j, c).hops| == |hops| + 1
    ensures var long, e, ws := CutJob(j, c), j.hops[c.at], hops[c.at];
      var x := RunWork(e, ws, w, ResetWorks, EvalWorks);
      && Found(j, c.at, i, ws) == ws
      && PassThrough(long, CutHops(hops, c), c.at, i, w)
         == if !Evaluates(e, ws, w, ResetWorks, EvalWorks) then None
            else if c.at + 1 == |hops| then
              Some((CutHops(hops[c.at := x], c), LastPayload(j, Prepare(e, ws, w).engine, w)))
            else
              PassThrough(long, CutHops(hops[c.at := x], c), c.at + 2, i, Forwarded(j, e, Prepare(e, ws, w).engine, w))
  {
    hide Composes, Evaluates, RunWork, Prepare, CutHops, CutJob, Share, SessionRun;
    CutKeepsJob(j, c);
    CutSizes(j, hops, c);
    var long, e, ws := CutJob(j, c), j.hops[c.at], hops[c.at];
    CutMiddle(j, hops, i, c, RunWork(e, ws, w, ResetWorks, EvalWorks));
    HalvesRun(e, c, j.wire, ws, w);
    NoStray(e, ws, j.session);
    NoStray(c.a, Share(ws, c.first), j.session);
    NoStray(c.b, Share(ws, c.second), j.session);
  }

  lemma CutSpan(j: Job, cl: Cluster, i: nat, c: Cut)
    requires Cuts(j, c) && |cl.hops| == |j.hops|
    ensures ValidJob(CutJob(j, c)) && |CutJob(j, c).hops| == |j.hops| + 1
    ensures EvalSpan(CutJob(j, c), CutCluster(cl, c), i) == CutResult(EvalSpan(j, cl, i), |j.hops|, c)
  {
    hide Composes, PassThrough, CutHops, HashSpan, HashPrefix, SpanPrefix, SpanFrame, ChunkStart, Chunk, CutJob;
    CutKeepsJob(j, c);
    CutSizes(j, cl.hops, c);
    var ready := if j.reset && i == 0 then Reset(j.local, cl.local, ResetWorks) else cl.local;
    var prefix := SpanPrefix(j, cl.local, i);
    CutKeepsFrames(j, cl.local, ready, i, c);
    if prefix.Some? { CutPass(j, cl.hops, 0, i, SpanFrame(j, ready, prefix.value, i), c); }
  }

  lemma CutKeepsFrames(j: Job, local: EngineSession, ready: EngineSession, i: nat, c: Cut)
    requires Cuts(j, c)
    ensures var long := CutJob(j, c);
      && ValidJob(long) && long.local == j.local && long.reset == j.reset && long.head == j.head
      && SpanPrefix(long, local, i) == SpanPrefix(j, local, i)
      && forall prefix :: SpanFrame(long, ready, prefix, i) == SpanFrame(j, ready, prefix, i)
  {
    hide Composes, HashSpan, HashPrefix, ChunkStart, Chunk;
    CutKeepsJob(j, c);
  }

  lemma NextSpan(j: Job, cl: Cluster, i: nat, logits: Logits)
    requires ValidJob(j) && |cl.hops| == |j.hops|
    ensures EvalSpans(j, cl, i, logits)
         == if i >= Count(j) then Some((cl, logits))
            else if EvalSpan(j, cl, i).None? then None
            else EvalSpans(j, EvalSpan(j, cl, i).value.0, i + 1, EvalSpan(j, cl, i).value.1)
  {
    hide EvalSpan, Count;
  }

  lemma CutKeepsCount(j: Job, c: Cut)
    requires Cuts(j, c)
    ensures ValidJob(j) && c.at < |j.hops| && ValidJob(CutJob(j, c)) && Count(CutJob(j, c)) == Count(j)
  {
    hide Composes;
  }

  /** Cutting a slice in two changes nothing: over the longer route the plain loop works exactly if it does over the
      shorter one, with the same logits, and with the cut slice's KV state shared out between its halves. */
  lemma {:induction false} CutsDoNotMatter(j: Job, cl: Cluster, i: nat, logits: Logits, c: Cut)
    requires Cuts(j, c) && |cl.hops| == |j.hops|
    ensures ValidJob(CutJob(j, c)) && |CutJob(j, c).hops| == |j.hops| + 1
    ensures EvalSpans(CutJob(j, c), CutCluster(cl, c), i, logits) == CutResult(EvalSpans(j, cl, i, logits), |j.hops|, c)
    decreases Count(j) - i
  {
    hide Cuts, EvalSpan, EvalSpans, CutCluster, CutJob, Count;
    CutKeepsCount(j, c);
    CutSpan(j, cl, i, c);
    NextSpan(j, cl, i, logits);
    NextSpan(CutJob(j, c), CutCluster(cl, c), i, logits);
    if i < Count(j) {
      var r := EvalSpan(j, cl, i);
      if r.Some? { CutsDoNotMatter(j, r.value.0, i + 1, r.value.1, c); }
    }
  }

  // ---------------------------------------------------------------- a cut between the coordinator and the first hop

  ghost predicate CutsLocal(j: Job, c: Cut) {
    ValidJob(j) && Composes(j.local, c.a, c.b, j.wire, c.first, c.second)
  }

  /** The job in which the second half of the coordinator's slice is a hop of its own. */
  function CutLocalJob(j: Job, c: Cut): Job {
    j.(local := c.a, hops := [c.b] + j.hops, strays := (h: nat, i: nat) => if h == 0 then [] else j.strays(h - 1, i))
  }

  /** The same state over both routes: the coordinator and the new hop share what the coordinator held alone. */
  ghost predicate InStep(cl: Cluster, long: Cluster, c: Cut) {
    && long.local == EngineShare(cl.local, c.first)
    && |long.hops| == |cl.hops| + 1 && long.hops[1..] == cl.hops
    && long.hops[0].engine == EngineShare(cl.local, c.second) && Trustworthy(long.hops[0])
  }

  lemma LocalCutKeepsJob(j: Job, c: Cut)
    requires CutsLocal(j, c)
    ensures ValidJob(CutLocalJob(j, c)) && Count(CutLocalJob(j, c)) == Count(j)
    ensures forall i: nat ::
      ChunkStart(CutLocalJob(j, c), i) == ChunkStart(j, i) && Chunk(CutLocalJob(j, c), i) == Chunk(j, i)
  {
    hide Composes;
    forall i: nat ensures ChunkStart(CutLocalJob(j, c), i) == ChunkStart(j, i) {
      ChunkStartIsClamped(j, i);
      ChunkStartIsClamped(CutLocalJob(j, c), i);
    }
  }

  /** Behind the new hop both routes are the same. */
  lemma {:induction false} PassBehind(j: Job, x: WorkerSession, hops: seq<WorkerSession>, h: nat, i: nat, w: Work,
                                      c: Cut)
    requires CutsLocal(j, c) && |hops| == |j.hops| && h < |hops|
    ensures var long, r := CutLocalJob(j, c), PassThrough(j, hops, h, i, w);
      ValidJob(long) && PassThrough(long, [x] + hops, h + 1, i, w)
        == if r.None? then None else Some(([x] + r.value.0, r.value.1))
    decreases |hops| - h
  {
    hide Composes, Evaluates, RunWork, Prepare, SessionRun;
    var e, ws, long := j.hops[h], Found(j, h, i, hops[h]), CutLocalJob(j, c);
    var y := RunWork(e, ws, w, ResetWorks, EvalWorks);
    assert ([x] + hops)[h + 1 := y] == [x] + hops[h := y];
    assert long.hops[h + 1] == e && long.hops[|hops|] == j.hops[|hops| - 1];
    if Evaluates(e, ws, w, ResetWorks, EvalWorks) && h + 1 < |hops| {
      PassBehind(j, x, hops[h := y], h + 1, i, Forwarded(j, e, Prepare(e, ws, w).engine, w), c);
    }
  }

  /** What the new hop does with the frame of a span: it takes it, and sends on the frame of the shorter route. */
  lemma NewHopRuns(j: Job, cl: Cluster, long: Cluster, i: nat, c: Cut)
    requires CutsLocal(j, c) && |cl.hops| == |j.hops| && InStep(cl, long, c)
    requires (j.reset && i == 0) || cl.local.live
    requires SpanPrefix(j, cl.local, i).Some?
    requires TimelineAdmits(if j.reset && i == 0 then Reset(j.local, cl.local, ResetWorks)
      else cl.local, ChunkStart(j, i))
    ensures ValidJob(CutLocalJob(j, c))
    ensures var longJob, prefix := CutLocalJob(j, c), SpanPrefix(j, cl.local, i).value;
      var ready := if j.reset && i == 0 then Reset(j.local, cl.local, ResetWorks) else cl.local;
      var w := SpanFrame(longJob, EngineShare(ready, c.first), prefix, i);
      var ws := long.hops[0];
      && Evaluates(c.b, ws, w, ResetWorks, EvalWorks)
      && Forwarded(longJob, c.b, Prepare(c.b, ws, w).engine, w) == SpanFrame(j, ready, prefix, i)
      && RunWork(c.b, ws, w, ResetWorks, EvalWorks).engine
           == EngineShare(Extend(j.local, ready, Chunk(j, i), ChunkStart(j, i), FromTokens), c.second)
      && Trustworthy(RunWork(c.b, ws, w, ResetWorks, EvalWorks))
  {
    hide HashSpan, Chunk, ChunkStart;
    LocalCutKeepsJob(j, c);
    var ready := if j.reset && i == 0 then Reset(j.local, cl.local, ResetWorks) else cl.local;
    assert ComposesAt(j.local, c.a, c.b, j.wire, c.first, c.second, ready.kv, Chunk(j, i), ChunkStart(j, i),
                      FromTokens);
    EmptyPrefix();
    if !(j.reset && i == 0) { assert cl.local.tokens[..ChunkStart(j, i)] == cl.local.tokens; }
    HashSpanComposes(HASH_INIT, ready.tokens, Chunk(j, i));
  }

  lemma CutLocalSpan(j: Job, cl: Cluster, long: Cluster, i: nat, c: Cut)
    requires CutsLocal(j, c) && |cl.hops| == |j.hops| && InStep(cl, long, c)
    requires (j.reset && i == 0) || cl.local.live
    ensures ValidJob(CutLocalJob(j, c)) && |CutLocalJob(j, c).hops| == |j.hops| + 1
    ensures var r, r' := EvalSpan(j, cl, i), EvalSpan(CutLocalJob(j, c), long, i);
      && (r.None? <==> r'.None?)
      && (r.Some? ==> InStep(r.value.0, r'.value.0, c) && r'.value.1 == r.value.1 && r.value.0.local.live)
  {
    hide Composes, HashSpan, HashPrefix, Evaluates, RunWork, Prepare, Trustworthy, ChunkStart, Chunk, Forwarded,
         SpanFrame;
    LocalCutKeepsJob(j, c);
    var longJob := CutLocalJob(j, c);
    var ready := if j.reset && i == 0 then Reset(j.local, cl.local, ResetWorks) else cl.local;
    SharedReady(j, cl, long, i, c);
    var prefix := SpanPrefix(j, cl.local, i);
    if prefix.Some? && TimelineAdmits(ready, ChunkStart(j, i)) {
      NewHopRuns(j, cl, long, i, c);
      var w := SpanFrame(longJob, EngineShare(ready, c.first), prefix.value, i);
      NoStray(c.b, long.hops[0], j.session);
      var x := RunWork(c.b, long.hops[0], w, ResetWorks, EvalWorks);
      assert long.hops[0 := x] == [x] + cl.hops;
      PassBehind(j, x, cl.hops, 0, i, SpanFrame(j, ready, prefix.value, i), c);
      ExtendShared(j, ready, i, c);
    }
  }

  lemma SharedReady(j: Job, cl: Cluster, long: Cluster, i: nat, c: Cut)
    requires CutsLocal(j, c) && InStep(cl, long, c)
    ensures ValidJob(CutLocalJob(j, c)) && SpanPrefix(CutLocalJob(j, c), long.local, i) == SpanPrefix(j, cl.local, i)
    ensures EngineShare(Reset(j.local, cl.local, ResetWorks), c.first) == Reset(c.a, long.local, ResetWorks)
  {
    hide ComposesAt, ChunkStart;
    LocalCutKeepsJob(j, c);
  }

  lemma ExtendShared(j: Job, ready: EngineSession, i: nat, c: Cut)
    requires CutsLocal(j, c)
    ensures EngineShare(Extend(j.local, ready, Chunk(j, i), ChunkStart(j, i), FromTokens), c.first)
         == Extend(c.a, EngineShare(ready, c.first), Chunk(j, i), ChunkStart(j, i), FromTokens)
  {
    hide Chunk, ChunkStart;
    assert ComposesAt(j.local, c.a, c.b, j.wire, c.first, c.second, ready.kv, Chunk(j, i), ChunkStart(j, i),
                      FromTokens);
  }

  /** Nor does a cut through the coordinator's slice matter, for any call that resets or starts from a valid
      timeline. */
  lemma {:induction false} LocalCutsDoNotMatter(j: Job, cl: Cluster, long: Cluster, i: nat, logits: Logits, c: Cut)
    requires CutsLocal(j, c) && |cl.hops| == |j.hops| && InStep(cl, long, c)
    requires (j.reset && i == 0) || cl.local.live
    ensures ValidJob(CutLocalJob(j, c)) && |CutLocalJob(j, c).hops| == |j.hops| + 1
    ensures var r, r' := EvalSpans(j, cl, i, logits), EvalSpans(CutLocalJob(j, c), long, i, logits);
      && (r.None? <==> r'.None?)
      && (r.Some? ==> InStep(r.value.0, r'.value.0, c) && r'.value.1 == r.value.1)
    decreases Count(j) - i
  {
    hide CutsLocal, InStep, EvalSpan, EvalSpans, Count;
    LocalCutKeepsCount(j, c);
    InStepSizes(cl, long, c);
    CutLocalSpan(j, cl, long, i, c);
    NextSpan(j, cl, i, logits);
    NextSpan(CutLocalJob(j, c), long, i, logits);
    if i < Count(j) {
      var r, r' := EvalSpan(j, cl, i), EvalSpan(CutLocalJob(j, c), long, i);
      if r.Some? { LocalCutsDoNotMatter(j, r.value.0, r'.value.0, i + 1, r.value.1, c); }
    }
  }

  lemma InStepSizes(cl: Cluster, long: Cluster, c: Cut)
    requires InStep(cl, long, c)
    ensures |long.hops| == |cl.hops| + 1
  {
  }

  lemma LocalCutKeepsCount(j: Job, c: Cut)
    requires CutsLocal(j, c)
    ensures ValidJob(j) && ValidJob(CutLocalJob(j, c)) && Count(CutLocalJob(j, c)) == Count(j)
  {
    hide Composes;
  }

  // ---------------------------------------------------------------- the output head

  /** The last hop's logits are those that the coordinator's head makes of its hidden state. */
  ghost predicate SameHead(j: Job) {
    && ValidJob(j)
    && var e := j.hops[|j.hops| - 1];
      forall kv, tokens, pos0: nat, input ::
        e.logitsOut(kv, tokens, pos0, input) == j.head(j.wire(e.hiddenOut(kv, tokens, pos0, input)), |tokens|)
  }

  lemma {:induction false} HeadPass(j: Job, hops: seq<WorkerSession>, h: nat, i: nat, w: Work)
    requires SameHead(j) && j.lastHasOutput && |hops| == |j.hops| && h < |hops| && !w.ackOnly
    ensures var r, r' := PassThrough(j, hops, h, i, w), PassThrough(j.(lastHasOutput := false), hops, h, i, w);
      && (r.None? <==> r'.None?)
      && (r.Some? ==> r'.value.0 == r.value.0)
      && (r.Some? ==> FinalLogits(j, r'.value.1, |w.tokens|) == FinalLogits(j, r.value.1, |w.tokens|))
    decreases |hops| - h
  {
    hide Evaluates, RunWork, Prepare, SessionRun;
    var e, ws := j.hops[h], Found(j, h, i, hops[h]);
    if Evaluates(e, ws, w, ResetWorks, EvalWorks) && h + 1 < |hops| {
      HeadPass(j, hops[h := RunWork(e, ws, w, ResetWorks, EvalWorks)], h + 1, i,
               Forwarded(j, e, Prepare(e, ws, w).engine, w));
    }
  }

  lemma HeadSpan(j: Job, cl: Cluster, i: nat)
    requires SameHead(j) && j.lastHasOutput && |cl.hops| == |j.hops|
    ensures EvalSpan(j.(lastHasOutput := false), cl, i) == EvalSpan(j, cl, i)
  {
    hide SameHead, PassThrough, HashSpan, HashPrefix;
    HeadKeepsChunks(j);
    var ready := if j.reset && i == 0 then Reset(j.local, cl.local, ResetWorks) else cl.local;
    var prefix := SpanPrefix(j, cl.local, i);
    if prefix.Some? { HeadPass(j, cl.hops, 0, i, SpanFrame(j, ready, prefix.value, i)); }
  }

  lemma HeadKeepsChunks(j: Job)
    requires SameHead(j)
    ensures ValidJob(j) && Count(j.(lastHasOutput := false)) == Count(j)
    ensures forall i: nat ::
      ChunkStart(j.(lastHasOutput := false), i) == ChunkStart(j, i)
        && Chunk(j.(lastHasOutput := false), i) == Chunk(j, i)
  {
    forall i: nat ensures ChunkStart(j.(lastHasOutput := false), i) == ChunkStart(j, i) {
      ChunkStartIsClamped(j, i);
      ChunkStartIsClamped(j.(lastHasOutput := false), i);
    }
  }

  /** It does not matter on which side the output head runs. */
  lemma {:induction false} HeadDoesNotMatter(j: Job, cl: Cluster, i: nat, logits: Logits)
    requires SameHead(j) && j.lastHasOutput && |cl.hops| == |j.hops|
    ensures EvalSpans(j.(lastHasOutput := false), cl, i, logits) == EvalSpans(j, cl, i, logits)
    decreases Count(j) - i
  {
    hide SameHead, EvalSpan, EvalSpans, Count, ChunkStart, Chunk;
    HeadKeepsChunks(j);
    HeadSpan(j, cl, i);
    NextSpan(j, cl, i, logits);
    NextSpan(j.(lastHasOutput := false), cl, i, logits);
    if i < Count(j) {
      var r := EvalSpan(j, cl, i);
      if r.Some? { HeadDoesNotMatter(j, r.value.0, i + 1, r.value.1); }
    }
  }
}
