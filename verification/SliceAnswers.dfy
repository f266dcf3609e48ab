/** What a prefill answers, in terms of the slices alone: every slice runs every chunk, in order, on what the slice
    before it computed for the same chunk, and the logits come from the last chunk. */
module SliceAnswers {
  import opened Wire
  import opened TokenHash
  import opened Engine
  import opened WorkerSessions
  import opened Prefill
  import opened Pipeline
  import opened PipelineSafety
  import opened PipelineTheorems
  import opened PipelineFaultFree
  import opened PipelineCalls
  import opened SliceComposition

  /** Slice 0 is the coordinator's, slice k the one of hop k - 1. */
  function Slice(j: Job, k: nat): SliceEngine
    requires k <= |j.hops|
  {
    if k == 0 then j.local else j.hops[k - 1]
  }

  function StartKv(j: Job, cl: Cluster, k: nat): Kv
    requires k <= |j.hops| == |cl.hops|
  {
    if j.reset then Slice(j, k).emptyKv else if k == 0 then cl.local.kv else cl.hops[k - 1].engine.kv
  }

  /** A slice's KV state after i chunks. */
  function KvAfter(j: Job, cl: Cluster, k: nat, i: nat): Kv
    requires ValidJob(j) && k <= |j.hops| == |cl.hops|
    decreases i, k, 0
  {
    if i == 0 then StartKv(j, cl, k)
    else
      var chunk, start := j.prompt[ChunkStart(j, i - 1)..ChunkStart(j, i)], ChunkStart(j, i - 1);
      Slice(j, k).stepKv(KvAfter(j, cl, k, i - 1), chunk, start, InputTo(j, cl, k, i - 1))
  }

  /** What a slice works on: the tokens, or what the slice before it made of the chunk, as it arrives over the wire. */
  function InputTo(j: Job, cl: Cluster, k: nat, i: nat): Input
    requires ValidJob(j) && k <= |j.hops| == |cl.hops|
    decreases i, k, 1
  {
    if k == 0 then FromTokens else FromHidden(j.wire(OutputOf(j, cl, k - 1, i)))
  }

  function OutputOf(j: Job, cl: Cluster, k: nat, i: nat): Hidden
    requires ValidJob(j) && k <= |j.hops| == |cl.hops|
    decreases i, k, 2
  {
    var chunk, start := j.prompt[ChunkStart(j, i)..ChunkStart(j, i + 1)], ChunkStart(j, i);
    Slice(j, k).hiddenOut(KvAfter(j, cl, k, i), chunk, start, InputTo(j, cl, k, i))
  }

  /** The answer to chunk i. */
  function AnswerTo(j: Job, cl: Cluster, i: nat): Logits
    requires ValidJob(j) && |j.hops| == |cl.hops|
  {
    var n, chunk, start := |j.hops|, j.prompt[ChunkStart(j, i)..ChunkStart(j, i + 1)], ChunkStart(j, i);
    if j.lastHasOutput then Slice(j, n).logitsOut(KvAfter(j, cl, n, i), chunk, start, InputTo(j, cl, n, i))
    else j.head(j.wire(OutputOf(j, cl, n, i)), |chunk|)
  }

  /** Nobody else reaches the hops' sessions between the frames of the call. */
  ghost predicate Undisturbing(j: Job) {
    forall h: nat, i: nat :: h < |j.hops| && (i > 0 || !j.reset) ==> j.strays(h, i) == []
  }

  lemma {:induction false} LocalKv(j: Job, cl: Cluster, i: nat)
    requires ValidJob(j) && |j.hops| == |cl.hops|
    ensures LocalReady(j, cl, i).kv == KvAfter(j, cl, 0, i)
    ensures i > 0 ==> LocalAt(j, cl, i).kv == KvAfter(j, cl, 0, i)
    decreases i
  {
    hide ChunkStart;
    if i > 0 { LocalKv(j, cl, i - 1); }
  }

  /** The table of states holds exactly these KV states and inputs. */
  lemma {:induction false} TableKv(j: Job, cl: Cluster, h: nat, i: nat)
    requires ValidJob(j) && |j.hops| == |cl.hops| && h < |j.hops| && Undisturbing(j)
    ensures HopReady(j, cl, h, i).kv == KvAfter(j, cl, h + 1, i)
    ensures FrameAt(j, cl, h, i).input == InputTo(j, cl, h + 1, i)
    ensures i > 0 ==> HopAt(j, cl, h, i).engine.kv == KvAfter(j, cl, h + 1, i)
    decreases i, h
  {
    hide ChunkStart, HashAt, SessionStep;
    if i > 0 { TableKv(j, cl, h, i - 1); }
    if h > 0 { TableKv(j, cl, h - 1, i); } else { LocalKv(j, cl, i); }
    assert HiddenInto(j, cl, h, i) == OutputOf(j, cl, h, i);
    if i > 0 || !j.reset { NoStray(j.hops[h], HopAt(j, cl, h, i), j.session); }
  }

  /** What the plain loop computes, whenever it works. */
  lemma PlainAnswer(j: Job, cl: Cluster, logits: Logits)
    requires ValidJob(j) && Precomputed(j) && |cl.hops| == |j.hops| && Undisturbing(j)
    requires !j.reset ==> cl.local.tokens == j.prompt[..j.start]
    requires EvalSpans(j, cl, 0, logits).Some?
    ensures j.count > 0
    ensures var r := EvalSpans(j, cl, 0, logits).value;
      && r.1 == AnswerTo(j, cl, j.count - 1)
      && r.0.local.kv == KvAfter(j, cl, 0, j.count)
      && forall h :: 0 <= h < |j.hops| ==> r.0.hops[h].engine.kv == KvAfter(j, cl, h + 1, j.count)
  {
    hide EvalSpans, Accepts, LocalAccepts, HopAt, HopReady, LocalAt, FrameAt, KvAfter, InputTo, OutputOf, ChunkStart,
         Precomputed, Undisturbing;
    CountFits(j);
    TableStart(j, cl);
    SpansWereAccepted(j, cl, 0, logits);
    PlainSpans(j, cl, 0, logits);
    LocalKv(j, cl, j.count);
    forall h | 0 <= h < |j.hops| ensures HopAt(j, cl, h, j.count).engine.kv == KvAfter(j, cl, h + 1, j.count) {
      TableKv(j, cl, h, j.count);
    }
    LastAnswer(j, cl, j.count - 1);
  }

  lemma CountFits(j: Job)
    requires ValidJob(j) && Precomputed(j)
    ensures j.count > 0
  {
    ChunksCover(j, 0);
  }

  lemma LastAnswer(j: Job, cl: Cluster, i: nat)
    requires ValidJob(j) && |cl.hops| == |j.hops| && Undisturbing(j)
    ensures FinalLogits(j, PlainPayload(j, cl, i), |Chunk(j, i)|) == AnswerTo(j, cl, i)
  {
    hide ChunkStart, KvAfter, HopReady, HiddenInto, HashAt, Undisturbing;
    TableKv(j, cl, |j.hops| - 1, i);
  }

  /** And what every pipelined prefill computes that succeeds, whatever its interleaving. */
  lemma PipelinedAnswer(j: Job, cl: Cluster, up: bool, lim: Limits, run: seq<Action>)
    requires ValidJob(j) && Precomputed(j) && |cl.hops| == |j.hops| && Completes(j, cl, up, lim, run) && Undisturbing(j)
    requires !j.reset ==> cl.local.tokens == j.prompt[..j.start]
    requires Succeeded(After(j, Start(cl, up), run))
    ensures var s := After(j, Start(cl, up), run);
      && s.read.final.Some? && !s.read.final.value.Ack? && |s.hops| == |j.hops|
      && ResultOf(j, s) == AnswerTo(j, cl, j.count - 1)
      && s.prod.local.kv == KvAfter(j, cl, 0, j.count)
      && forall h :: 0 <= h < |j.hops| ==> s.hops[h].session.engine.kv == KvAfter(j, cl, h + 1, j.count)
  {
    hide Completes, Precomputed, Undisturbing, After, Start, Succeeded, EvalSpans, KvAfter, AnswerTo;
    var logits: Logits := *;
    CountFits(j);
    PipelinedIsPlain(j, cl, up, lim, run, logits);
    PlainAnswer(j, cl, logits);
    var s := After(j, Start(cl, up), run);
    assert forall h :: 0 <= h < |s.hops| ==> ClusterOf(s).hops[h] == s.hops[h].session;
  }

  /** Where the slices are cut does not matter to a pipelined prefill either: over both routes some run succeeds or none
      does, and all runs that do give the same logits. */
  lemma CutsDoNotMatterPipelined(j: Job, cl: Cluster, c: Cut, up: bool, lim: Limits, lim': Limits)
    requires Cuts(j, c) && Precomputed(j) && |cl.hops| == |j.hops| && ValidLimits(lim) && ValidLimits(lim')
    requires !j.reset ==> cl.local.tokens == j.prompt[..j.start]
    ensures var long, cl' := CutJob(j, c), CutCluster(cl, c);
      && ValidJob(long) && |long.hops| == |cl'.hops| && j.count > 0
      && ((exists run :: Completes(j, cl, up, lim, run) && Succeeded(After(j, Start(cl, up), run)))
          <==> (exists run :: Completes(long, cl', up, lim', run) && Succeeded(After(long, Start(cl', up), run))))
      && forall run, run' :: Completes(j, cl, up, lim, run) && Succeeded(After(j, Start(cl, up), run)) &&
                             Completes(long, cl', up, lim', run') && Succeeded(After(long, Start(cl', up), run')) ==>
           var s, s' := After(j, Start(cl, up), run), After(long, Start(cl', up), run');
           && s.read.final.Some? && !s.read.final.value.Ack? && s'.read.final.Some? && !s'.read.final.value.Ack?
           && ResultOf(long, s') == ResultOf(j, s)
  {
    hide Cuts, Completes, Precomputed, After, Start, Succeeded, EvalSpans, CutJob, CutHops, ResultOf;
    var logits: Logits := *;
    CutKeepsCount(j, c);
    var long, cl' := CutJob(j, c), CutCluster(cl, c);
    CountFits(j);
    CutIsPrecomputed(j, c);
    CutsDoNotMatter(j, cl, 0, logits, c);
    SomeRunSucceedsIff(j, lim, cl, up, logits);
    SomeRunSucceedsIff(long, lim', cl', up, logits);
    forall run, run' | Completes(j, cl, up, lim, run) && Succeeded(After(j, Start(cl, up), run)) &&
                       Completes(long, cl', up, lim', run') && Succeeded(After(long, Start(cl', up), run'))
      ensures var s, s' := After(j, Start(cl, up), run), After(long, Start(cl', up), run');
        && s.read.final.Some? && !s.read.final.value.Ack? && s'.read.final.Some? && !s'.read.final.value.Ack?
        && ResultOf(long, s') == ResultOf(j, s)
    {
      PipelinedIsPlain(j, cl, up, lim, run, logits);
      PipelinedIsPlain(long, cl', up, lim', run', logits);
    }
  }

  lemma CutIsPrecomputed(j: Job, c: Cut)
    requires Cuts(j, c) && Precomputed(j)
    ensures ValidJob(CutJob(j, c)) && Precomputed(CutJob(j, c)) && CutJob(j, c).count == j.count
    ensures CutJob(j, c).prompt == j.prompt && CutJob(j, c).start == j.start && CutJob(j, c).reset == j.reset
  {
    hide Composes, HashPrefix, ChunkStart, Count;
    CutKeepsJob(j, c);
  }
}
