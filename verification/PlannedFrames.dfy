/** The frames of a prefill along a route that the planner found: what each hop's worker reads off the wire is the frame
    that the pipeline hands to its session, and no worker refuses it. */
module PlannedFrames {
  import opened Wire
  import opened TokenHash
  import opened WorkerSessions
  import opened Prefill
  import opened RouteBlob
  import RouteSearch
  import WorkFrame

  /** What the coordinator knows beyond the prefill job when it writes a frame. */
  datatype Link = Link(modelId: U32, bits: U32, hcValues: nat)

  /** Everything that a frame names fits its field. */
  predicate FieldsFit(j: Job, i: nat)
    requires ValidJob(j)
  {
    && j.firstRequest + i < TWO64 && |j.prompt| < TWO32
    && forall k :: 0 <= k < |j.prompt| ==> 0 <= j.prompt[k] < TWO32
  }

  function TokensOf(j: Job, i: nat): (ts: seq<U32>)
    requires ValidJob(j) && FieldsFit(j, i)
    ensures ts == Chunk(j, i)
  {
    seq(|Chunk(j, i)|, k requires 0 <= k < |Chunk(j, i)| => Chunk(j, i)[k])
  }

  /** Chunk i of a prefill as a span to dispatch. */
  function SpanOf(j: Job, i: nat, l: Link): WorkFrame.Span
    requires ValidJob(j) && FieldsFit(j, i)
  {
    WorkFrame.Span(l.modelId, j.session, j.firstRequest + i, HashAt(j, i), ChunkStart(j, i), TokensOf(j, i),
                   j.reset && i == 0, j.ackOnly && i + 1 < j.count, l.bits, l.hcValues)
  }

  /** A frame on the wire and a frame at a session are the same one, apart from how the hidden state is written. */
  predicate Carries(f: WorkFrame.Frame, w: Work) {
    var flags := WorkFrame.FlagsOf(f.work.flags);
    && f.work.session == w.session && f.work.request == w.request
    && f.work.prefixHash == w.prefixHash && f.work.resultHash == w.resultHash
    && f.work.pos0 == w.pos0 && f.tokens == w.tokens
    && flags.reset == w.reset && flags.ackOnly == w.ackOnly
  }

  /** A planned worker, seen from its own side, with room for the tokens of a chunk. */
  predicate IsNode(n: WorkFrame.Node, w: RouteSearch.Worker, nLayers: nat, l: Link, pos0: nat, tokens: seq<U32>) {
    && n.modelId == l.modelId && n.nLayers == nLayers && n.hcValues == l.hcValues
    && n.layerStart == w.layerStart && n.layerEnd == w.layerEnd && n.hasOutput == w.hasOutput
    && pos0 + |tokens| <= n.ctxSize && forall k :: 0 <= k < |tokens| ==> InVocabulary(tokens[k], n.vocab)
  }

  /** The kind of answer that carries a payload. */
  function KindFor(p: Payload): WorkFrame.ResultKind {
    match p
    case Ack => WorkFrame.AckResult
    case LogitsOf(_) => WorkFrame.LogitsResult
    case HiddenOf(_) => WorkFrame.HiddenResult
  }

  /** The route is one that the planner found among registered workers, and its hops are those workers. */
  ghost predicate Planned(c: RouteSearch.Coordinator, ws: seq<RouteSearch.Worker>, route: seq<RouteSearch.Worker>,
                          nodes: seq<WorkFrame.Node>, j: Job, i: nat, l: Link)
    requires ValidJob(j) && FieldsFit(j, i)
  {
    && 1 <= c.nLayers < TWO32 && c.localEnd + 1 < c.nLayers
    && RouteSearch.AllAccepted(c, ws) && (forall w :: w in ws ==> HostOk(w.host))
    && RouteSearch.IsRoute(c, ws, route, c.localEnd + 1, c.nLayers - 1)
    && |route| == |nodes| == |j.hops|
    && (forall h :: 0 <= h < |route| ==> RouteSearch.Accepted(c, route[h]))
    && WorkFrame.Fits(SpanOf(j, i, l), WorkFrame.EntriesFor(c, route))
    && (j.lastHasOutput <==> route[|route| - 1].hasOutput)
    && forall h :: 0 <= h < |route| ==> IsNode(nodes[h], route[h], c.nLayers, l, ChunkStart(j, i), TokensOf(j, i))
  }

  lemma PlannedIsDeployed(c: RouteSearch.Coordinator, ws: seq<RouteSearch.Worker>, route: seq<RouteSearch.Worker>,
                          nodes: seq<WorkFrame.Node>, j: Job, i: nat, l: Link)
    requires ValidJob(j) && FieldsFit(j, i) && Planned(c, ws, route, nodes, j, i, l)
    ensures WorkFrame.Deployed(SpanOf(j, i, l), WorkFrame.EntriesFor(c, route), nodes, c.nLayers)
  {
    hide WorkFrame.Fits, RouteOk, Chunk, ChunkStart, RouteSearch.IsRoute;
    WorkFrame.PlannedRouteIsValid(c, ws, route, c.localEnd + 1);
    var es := WorkFrame.EntriesFor(c, route);
    forall h | 0 <= h < |route| ensures WorkFrame.Serves(nodes[h], SpanOf(j, i, l), es[h], c.nLayers) {
      assert es[h] == WorkFrame.EntryFor(route[h]);
    }
  }

  /** No hop refuses.  On a planned route, whatever the activation bytes, the frame of chunk i that reaches hop h's
      worker is the frame of the plain loop's table, and the worker's structural checks accept it.  Every hop but the
      last sends its hidden state to the address of the next planned worker; the last one answers with the kind of
      payload that the table has for the chunk: logits if that worker owns the output head, else a hidden state, or
      an ACK where that is enough. */
  lemma NoHopRefuses(c: RouteSearch.Coordinator, ws: seq<RouteSearch.Worker>, route: seq<RouteSearch.Worker>,
                     nodes: seq<WorkFrame.Node>, j: Job, cl: Cluster, i: nat, h: nat, l: Link, hidden: seq<Byte>)
    requires ValidJob(j) && Precomputed(j) && |cl.hops| == |j.hops| && i < j.count && h < |j.hops|
    requires FieldsFit(j, i) && Planned(c, ws, route, nodes, j, i, l)
    requires |hidden| == WorkFrame.WireBytes(l.bits, |TokensOf(j, i)| * l.hcValues).value
    ensures var es, span := WorkFrame.EntriesFor(c, route), SpanOf(j, i, l);
      && WorkFrame.WorkReaching(span, es, h).Some?
      && var f := WorkFrame.Frame(WorkFrame.WorkReaching(span, es, h).value, TokensOf(j, i), hidden, PrintRoute(es));
        && Carries(f, FrameAt(j, cl, h, i))
        && var v := WorkFrame.VerdictOf(nodes[h], WorkFrame.FrameBytes(f));
          && v.Runs?
          && (if h + 1 < |route| then
                && v.kind.HiddenResult? && v.next.Some?
                && v.next.value.host == route[h + 1].host && v.next.value.port == route[h + 1].port
                && v.next.value.layerStart == route[h + 1].layerStart && v.next.value.layerEnd == route[h + 1].layerEnd
              else v.next.None? && v.kind == KindFor(PayloadAt(j, cl, i)))
  {
    hide WorkFrame.VerdictOf, WorkFrame.FrameBytes, WorkFrame.Deployed, HashSpan, Chunk, ChunkStart, PrintRoute,
         WorkFrame.FlagsOf, WorkFrame.FlagWord;
    PlannedIsDeployed(c, ws, route, nodes, j, i, l);
    var es, span := WorkFrame.EntriesFor(c, route), SpanOf(j, i, l);
    WorkFrame.EveryHopAccepts(span, es, nodes, c.nLayers, h, hidden);
    DeployedMeans(span, es, nodes, c.nLayers);
    WorkFrame.WorkReachesHop(span, es, c.nLayers, h);
    ChunkExtendsPrompt(j, i);
    WorkFrame.FlagsRoundTrip(WorkFrame.Flags(true, es[h].flags == F_OUTPUT_LOGITS, span.reset, span.ackOnly));
    assert es[h] == WorkFrame.EntryFor(route[h]);
    if h + 1 < |route| { assert es[h + 1] == WorkFrame.EntryFor(route[h + 1]); }
  }

  lemma DeployedMeans(c: WorkFrame.Span, es: seq<Entry>, nodes: seq<WorkFrame.Node>, nLayers: U32)
    requires WorkFrame.Deployed(c, es, nodes, nLayers)
    ensures WorkFrame.Fits(c, es) && RouteOk(es, nLayers)
  {
  }
}
