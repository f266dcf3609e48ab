/** One call of the pipelined prefill, from either state of its first socket: when some run of it succeeds, and when
    some run of it ends in a worker's error answer. */
module PipelineCalls {
  import opened Wire
  import opened Engine
  import opened WorkerSessions
  import opened Prefill
  import opened Pipeline
  import opened PipelineSafety
  import opened PipelineTheorems
  import opened PipelineProgress
  import opened PipelineFaultFree

  /** A pipelined prefill starts with its first socket as the last call left it. */
  function Start(cl: Cluster, up: bool): (s: State)
    requires |cl.hops| >= 1
    ensures |s.hops| == |cl.hops|
  {
    if up then Init(cl) else CloseFirst(Init(cl))
  }

  /** A complete run of the pipeline. */
  predicate Completes(j: Job, cl: Cluster, up: bool, lim: Limits, run: seq<Action>)
    requires ValidJob(j) && |cl.hops| == |j.hops|
  {
    && ValidLimits(lim) && j.count > 0
    && ValidRun(j, lim, Start(cl, up), run)
    && Finished(After(j, Start(cl, up), run))
  }

  /** A complete run keeps the invariants from either start. */
  lemma CompleteRun(j: Job, cl: Cluster, up: bool, lim: Limits, run: seq<Action>)
    requires ValidJob(j) && |cl.hops| == |j.hops| && Completes(j, cl, up, lim, run)
    ensures var s := After(j, Start(cl, up), run); Inv(j, lim, cl, s) && Live(s)
  {
    hide Inv, Live, ValidRun, Finished, Init, After, CloseFirst;
    InitLen(cl);
    InitKeeps(j, lim, cl);
    InitIsLive(cl);
    if !up { StartsDown(j, lim, cl); }
    EveryRunStaysLive(j, lim, cl, Start(cl, up), run);
  }

  lemma StartsDown(j: Job, lim: Limits, cl: Cluster)
    requires ValidJob(j) && |cl.hops| == |j.hops| && |Init(cl).hops| == |cl.hops|
    requires Inv(j, lim, cl, Init(cl)) && Live(Init(cl))
    ensures Inv(j, lim, cl, CloseFirst(Init(cl))) && Live(CloseFirst(Init(cl)))
  {
    hide Inv, Live, Init;
    var s := Init(cl);
    assert ActorOf(Fault(0)) == Some(0);
    FirstIsOpen(j, lim, cl);
    HopActionKeeps(j, lim, cl, s, 0, Fault(0));
    HopActionKeepsLive(j, lim, cl, s, 0, Fault(0));
    FaultClosesFirst(j, s);
  }

  lemma FirstIsOpen(j: Job, lim: Limits, cl: Cluster)
    requires ValidJob(j) && |cl.hops| == |j.hops|
    ensures Enabled(j, lim, Init(cl), Fault(0))
  {
  }

  lemma FaultClosesFirst(j: Job, s: State)
    requires ValidJob(j) && |s.hops| == |j.hops|
    ensures Apply(j, s, Fault(0)) == CloseFirst(s)
  {
    if |s.hops| > 1 {
      assert s.hops[0 := Close(s.hops[0])][1 := s.hops[1]] == s.hops[0 := Close(s.hops[0])];
    }
  }

  /** A pipelined prefill that fails leaves its first socket shut down. */
  lemma FailureShutsDown(j: Job, cl: Cluster, up: bool, lim: Limits, run: seq<Action>)
    requires ValidJob(j) && |cl.hops| == |j.hops| && Completes(j, cl, up, lim, run)
    requires !Succeeded(After(j, Start(cl, up), run))
    ensures !After(j, Start(cl, up), run).hops[0].link.open
  {
    hide Inv, ValidRun, Init, After, CloseFirst;
    CompleteRun(j, cl, up, lim, run);
  }

  // ---------------------------------------------------------------- a shut-down socket carries nothing

  predicate Silent(s: State)
    requires |s.hops| >= 1
  {
    !s.hops[0].link.open && s.hops[0].link.down.log == []
  }

  lemma StaysSilent(j: Job, lim: Limits, cl: Cluster, s: State, act: Action)
    requires ValidJob(j) && |cl.hops| == |j.hops| == |s.hops|
    requires Inv(j, lim, cl, s) && Enabled(j, lim, s, act) && Silent(s)
    ensures Silent(Apply(j, s, act))
  {
    match ActorOf(act) {
      case None =>
        hide Inv, LocalHidden, LocalSucceeds, LocalAfter, FrameOf, Acceptable;
      case Some(h) =>
        hide Inv, HopInv, CountsInv, ContentInv, PairInv, LastInv, ApplyHop, ApplyNext, EnabledMiddle, EnabledAny,
             NextTouched, ActorOf;
        HopActionShape(j, lim, cl, s, h, act);
        if h == 0 {
          OwnSocketOnlyCloses(j, 0, s.hops[0], if |s.hops| > 1 then Some(s.hops[1]) else None, act);
        }
    }
  }

  lemma {:induction false} RunStaysSilent(j: Job, lim: Limits, cl: Cluster, s: State, run: seq<Action>)
    requires ValidJob(j) && |cl.hops| == |j.hops| == |s.hops|
    requires Inv(j, lim, cl, s) && ValidRun(j, lim, s, run) && Silent(s)
    ensures Silent(After(j, s, run))
    decreases |run|
  {
    hide Inv, Enabled, Apply, Silent;
    if run != [] {
      OneStep(j, lim, s, run[0]);
      EveryRunKeepsInv(j, lim, cl, s, [run[0]]);
      StaysSilent(j, lim, cl, s, run[0]);
      RunStaysSilent(j, lim, cl, Apply(j, s, run[0]), run[1..]);
    }
  }

  /** Replaying over a connection that was shut down cannot succeed, whatever happens. */
  lemma DeadConnectionNeverSucceeds(j: Job, cl: Cluster, lim: Limits, run: seq<Action>)
    requires ValidJob(j) && |cl.hops| == |j.hops| && Completes(j, cl, false, lim, run)
    ensures !Succeeded(After(j, Start(cl, false), run))
  {
    hide Inv, Live, ValidRun, After, Init, Finished, Succeeded;
    var s0 := Start(cl, false);
    InitLen(cl);
    InitKeeps(j, lim, cl);
    InitIsLive(cl);
    StartsDown(j, lim, cl);
    StartIsSilent(cl);
    RunStaysSilent(j, lim, cl, s0, run);
    CompleteRun(j, cl, false, lim, run);
    if Succeeded(After(j, s0, run)) {
      SuccessfulHop(j, lim, cl, After(j, s0, run), 0);
    }
  }

  lemma StartIsSilent(cl: Cluster)
    requires |cl.hops| >= 1
    ensures Silent(Start(cl, false))
  {
  }

  /** The logits of a pipelined prefill: those of the last answer, or what the coordinator's own head makes of it. */
  function ResultOf(j: Job, s: State): Logits
    requires ValidJob(j) && j.count > 0 && s.read.final.Some? && !s.read.final.value.Ack?
  {
    FinalLogits(j, s.read.final.value, |Chunk(j, j.count - 1)|)
  }

  /** A pipelined prefill that succeeds did what the plain loop does, and has its logits. */
  lemma PipelinedIsPlain(j: Job, cl: Cluster, up: bool, lim: Limits, run: seq<Action>, logits: Logits)
    requires ValidJob(j) && Precomputed(j) && |cl.hops| == |j.hops| && Completes(j, cl, up, lim, run)
    requires !j.reset ==> cl.local.tokens == j.prompt[..j.start]
    requires Succeeded(After(j, Start(cl, up), run))
    ensures var s := After(j, Start(cl, up), run);
      && s.read.final.Some? && !s.read.final.value.Ack?
      && EvalSpans(j, cl, 0, logits) == Some((ClusterOf(s), ResultOf(j, s)))
  {
    hide Inv, ValidRun, After, Finished, Succeeded, Init, EvalSpans;
    if up {
      PipeliningPreservesMeaning(j, lim, cl, run, logits);
    } else {
      DeadConnectionNeverSucceeds(j, cl, lim, run);
    }
  }

  // ---------------------------------------------------------------- when a call can succeed

  lemma StartHasInvariants(j: Job, lim: Limits, cl: Cluster, up: bool)
    requires ValidJob(j) && ValidLimits(lim) && |cl.hops| == |j.hops| && j.count > 0
    ensures Inv(j, lim, cl, Start(cl, up)) && Live(Start(cl, up))
  {
    hide Inv, Live, Init, CloseFirst;
    InitLen(cl);
    InitKeeps(j, lim, cl);
    InitIsLive(cl);
    if !up { StartsDown(j, lim, cl); }
  }

  /** A pipelined prefill can return 0 if and only if its first socket is up and the plain loop over the same
      chunks works. */
  lemma SomeRunSucceedsIff(j: Job, lim: Limits, cl: Cluster, up: bool, logits: Logits)
    requires ValidJob(j) && Precomputed(j) && ValidLimits(lim) && |cl.hops| == |j.hops|
    requires !j.reset ==> cl.local.tokens == j.prompt[..j.start]
    ensures (exists run :: Completes(j, cl, up, lim, run) && Succeeded(After(j, Start(cl, up), run)))
       <==> up && EvalSpans(j, cl, 0, logits).Some?
  {
    hide Inv, Live, ValidRun, After, Finished, Succeeded, Init, EvalSpans, Completes, Undisturbed, Precomputed;
    forall run | Completes(j, cl, up, lim, run) && Succeeded(After(j, Start(cl, up), run))
      ensures up && EvalSpans(j, cl, 0, logits).Some?
    {
      if !up { DeadConnectionNeverSucceeds(j, cl, lim, run); }
      PipelinedIsPlain(j, cl, up, lim, run, logits);
    }
    if up && EvalSpans(j, cl, 0, logits).Some? {
      var run := SucceedingRun(j, lim, cl, logits);
    }
  }

  lemma SucceedingRun(j: Job, lim: Limits, cl: Cluster, logits: Logits) returns (run: seq<Action>)
    requires ValidJob(j) && Precomputed(j) && ValidLimits(lim) && |cl.hops| == |j.hops|
    requires !j.reset ==> cl.local.tokens == j.prompt[..j.start]
    requires EvalSpans(j, cl, 0, logits).Some?
    ensures Completes(j, cl, true, lim, run) && Succeeded(After(j, Start(cl, true), run))
  {
    hide Inv, Live, ValidRun, After, Finished, Succeeded, Init, EvalSpans, Undisturbed;
    ChunksCover(j, 0);
    InitLen(cl);
    StartHasInvariants(j, lim, cl, true);
    run := FinishFrom(j, lim, cl, Init(cl));
    UndisturbedRunsSucceedLikeThePlainLoop(j, lim, cl, run, logits);
  }

  // ---------------------------------------------------------------- when a call can end in a worker's error

  predicate EndsInRemoteError(s: State) {
    s.read.failed && s.read.remote
  }

  /** The last result that was read says that the very chunk the reader waited for has failed. */
  predicate LastReadFailed(j: Job, s: State)
    requires |s.hops| >= 1
  {
    var up := s.hops[0].link.up;
    0 < up.taken <= |up.log| && up.log[up.taken - 1].failed
    && up.log[up.taken - 1].request == j.firstRequest + s.read.accepted
  }

  predicate RemoteInv(j: Job, s: State)
    requires |s.hops| >= 1
  {
    && s.hops[0].link.up.taken <= |s.hops[0].link.up.log|
    && (s.read.remote ==> s.read.failed && s.read.done) && (s.read.remote <==> LastReadFailed(j, s))
  }

  /** The first hop's own steps only ever write results behind those that are there. */
  lemma OwnSocketOnlyGrows(j: Job, h: nat, a: Hop, b: Option<Hop>, act: Action)
    requires h < |j.hops|
    ensures ApplyHop(j, h, a, b, act).link.up.taken == a.link.up.taken
    ensures a.link.up.log <= ApplyHop(j, h, a, b, act).link.up.log
  {
    hide TakeJob, RxEffect, ForwardEffect, RelayEffect, AnswerEffect;
    InboundLeavesAnswers(j, h, a, act);
    OutboundGrows(a, act);
    if b.Some? { RelayGrows(a, b.value, act); }
  }

  lemma InboundLeavesAnswers(j: Job, h: nat, a: Hop, act: Action)
    requires h < |j.hops|
    ensures RxEffect(a, act).link.up == a.link.up && ForwardEffect(a, act).link.up == a.link.up
    ensures act.EvTake? && a.jobs != [] ==> TakeJob(j, h, a, act.refuse, act.ro, act.eo).link == a.link
  {
    hide Evaluates, RunWork, Prepare, Forwarded, LastPayload, Found;
  }

  lemma OutboundGrows(a: Hop, act: Action)
    ensures AnswerEffect(a, act).link.up.taken == a.link.up.taken && a.link.up.log <= AnswerEffect(a, act).link.up.log
  {
  }

  lemma RelayGrows(a: Hop, b: Hop, act: Action)
    ensures RelayEffect(a, b, act).link.up.taken == a.link.up.taken
    ensures a.link.up.log <= RelayEffect(a, b, act).link.up.log
  {
  }

  lemma StepKeepsRemote(j: Job, lim: Limits, s: State, act: Action)
    requires ValidJob(j) && |s.hops| == |j.hops| && Enabled(j, lim, s, act) && RemoteInv(j, s)
    ensures RemoteInv(j, Apply(j, s, act))
  {
    hide Enabled, ApplyHop, ApplyNext, ActorOf, ProducerStep, SenderStep, ReaderStep, RemoteInv;
    ReadsOnlyBefore(j, lim, s, act);
    match ActorOf(act) {
      case None =>
        if act.RRead? || act.REof? {
          ReaderKeepsRemote(j, s, act);
        } else {
          OthersReadNothing(j, s, act);
          SameReading(j, s, Apply(j, s, act));
        }
      case Some(h) => HopKeepsRemote(j, s, h, act);
    }
  }

  lemma ReadsOnlyBefore(j: Job, lim: Limits, s: State, act: Action)
    requires |s.hops| == |j.hops| >= 1 && Enabled(j, lim, s, act)
    ensures act.RRead? || act.REof? ==> !s.read.done && ActorOf(act) == None
  {
  }

  lemma SameReading(j: Job, s: State, s': State)
    requires |s.hops| >= 1 && |s'.hops| >= 1 && RemoteInv(j, s) && s'.read == s.read
    requires s'.hops[0].link.up.taken == s.hops[0].link.up.taken && s.hops[0].link.up.log <= s'.hops[0].link.up.log
    ensures RemoteInv(j, s')
  {
  }

  lemma OthersReadNothing(j: Job, s: State, act: Action)
    requires ValidJob(j) && |s.hops| == |j.hops|
    ensures ProducerStep(j, s, act).read == s.read && SenderStep(s, act).read == s.read
    ensures ProducerStep(j, s, act).hops[0].link.up == s.hops[0].link.up
    ensures SenderStep(s, act).hops[0].link.up == s.hops[0].link.up
  {
    hide LocalHidden, LocalSucceeds, LocalAfter, FrameOf;
  }

  lemma ReaderKeepsRemote(j: Job, s: State, act: Action)
    requires |s.hops| >= 1 && RemoteInv(j, s) && (act.RRead? || act.REof?) && !s.read.done
    ensures RemoteInv(j, ReaderStep(j, s, act))
  {
  }

  lemma HopKeepsRemote(j: Job, s: State, h: nat, act: Action)
    requires ValidJob(j) && |s.hops| == |j.hops| && ActorOf(act) == Some(h) && RemoteInv(j, s)
    ensures RemoteInv(j, Apply(j, s, act))
  {
    hide ApplyHop, ApplyNext, ActorOf, RemoteInv;
    if h == 0 { OwnSocketOnlyGrows(j, 0, s.hops[0], if |s.hops| > 1 then Some(s.hops[1]) else None, act); }
    SameReading(j, s, Apply(j, s, act));
  }

  lemma {:induction false} RunKeepsRemote(j: Job, lim: Limits, s: State, run: seq<Action>)
    requires ValidJob(j) && |s.hops| == |j.hops| && ValidRun(j, lim, s, run) && RemoteInv(j, s)
    ensures RemoteInv(j, After(j, s, run))
    decreases |run|
  {
    hide Enabled, Apply, RemoteInv;
    if run != [] {
      StepKeepsRemote(j, lim, s, run[0]);
      RunKeepsRemote(j, lim, Apply(j, s, run[0]), run[1..]);
    }
  }

  /** A call ends in a remote error exactly when the last result it read was a worker's error answer to the request
      that it waited for; an error that overtook other answers, a result that does not fit, and a lost socket are
      failures of another kind. */
  lemma RemoteErrorIff(j: Job, cl: Cluster, up: bool, lim: Limits, run: seq<Action>)
    requires ValidJob(j) && |cl.hops| == |j.hops| && ValidRun(j, lim, Start(cl, up), run)
    ensures EndsInRemoteError(After(j, Start(cl, up), run)) <==> LastReadFailed(j, After(j, Start(cl, up), run))
  {
    hide ValidRun, After, LastReadFailed;
    assert RemoteInv(j, Start(cl, up)) by { NothingRead(j, cl, up); }
    RunKeepsRemote(j, lim, Start(cl, up), run);
  }

  lemma NothingRead(j: Job, cl: Cluster, up: bool)
    requires |cl.hops| >= 1
    ensures RemoteInv(j, Start(cl, up))
  {
  }

  /** Nothing was ever sent to the first hop, so there is nothing it could answer. */
  predicate Unasked(a: Hop) {
    && a.link.down.log == [] && a.link.up.log == []
    && (a.ev.EvIdle? || a.ev.EvDone?)
    && a.fwd.pending == [] && !a.fwd.relay.RlHold?
  }

  /** An error that was read was written, in answer to a frame that was sent, for a chunk that the coordinator's own
      slice had accepted. */
  predicate Traced(j: Job, cl: Cluster, s: State)
    requires ValidJob(j) && |s.hops| >= 1
  {
    && (s.read.remote ==> s.hops[0].link.up.log != [])
    && (s.hops[0].link.down.log == [] ==> Unasked(s.hops[0]))
    && (s.prod.submitted > 0 || s.prod.pc.PEnqueue? ==> LocalAccepts(j, cl, 0))
  }

  lemma OwnStepUnasked(j: Job, lim: Limits, h: nat, a: Hop, b: Option<Hop>, act: Action)
    requires h < |j.hops| && CountsInv(a) && Unasked(a)
    requires if b.Some? then EnabledMiddle(lim, a, b.value, act) else EnabledAny(lim, a, act)
    ensures Unasked(ApplyHop(j, h, a, b, act))
  {
    hide CleanLen, RunJob, Found;
  }

  lemma FirstCounts(j: Job, lim: Limits, cl: Cluster, s: State)
    requires ValidJob(j) && |cl.hops| == |j.hops| == |s.hops| && Inv(j, lim, cl, s)
    ensures CountsInv(s.hops[0])
  {
    hide ProducerInv, SenderInv, ReaderInv, CountsInv, ContentInv, PairInv, LastInv;
    assert HopInv(j, cl, s, 0);
  }

  lemma HopStepTraced(j: Job, lim: Limits, cl: Cluster, s: State, h: nat, act: Action)
    requires ValidJob(j) && |cl.hops| == |j.hops| == |s.hops| && h < |s.hops|
    requires Inv(j, lim, cl, s) && ActorOf(act) == Some(h) && Enabled(j, lim, s, act) && Traced(j, cl, s)
    ensures Traced(j, cl, Apply(j, s, act))
  {
    hide Inv, HopInv, CountsInv, ContentInv, PairInv, LastInv, ApplyHop, ApplyNext, EnabledMiddle, EnabledAny,
         NextTouched, ActorOf, LocalAccepts, Unasked;
    HopActionShape(j, lim, cl, s, h, act);
    if h == 0 {
      FirstCounts(j, lim, cl, s);
      if s.hops[0].link.down.log == [] {
        OwnStepUnasked(j, lim, 0, s.hops[0], if |s.hops| > 1 then Some(s.hops[1]) else None, act);
      }
    }
  }

  lemma ProducerStepTraced(j: Job, lim: Limits, cl: Cluster, s: State, act: Action)
    requires ValidJob(j) && |cl.hops| == |j.hops| == |s.hops|
    requires ThreadsInv(j, lim, cl, s) && EnabledCoordinator(j, lim, s, act) && Traced(j, cl, s)
    ensures Traced(j, cl, ProducerStep(j, s, act))
  {
    hide CleanLen, Acceptable, LocalAccepts, LocalHidden, LocalSucceeds, LocalAfter, LocalAt, HiddenInto, FrameOf,
         Queued;
    if act.PLocal? && s.prod.submitted == 0 {
      LocalFollowsTable(j, cl, s.prod, act.ro, act.eo);
    }
  }

  lemma OthersTraced(j: Job, lim: Limits, cl: Cluster, s: State, act: Action)
    requires ValidJob(j) && |cl.hops| == |j.hops| == |s.hops|
    requires EnabledCoordinator(j, lim, s, act) && Traced(j, cl, s)
    ensures Traced(j, cl, SenderStep(s, act)) && Traced(j, cl, ReaderStep(j, s, act))
  {
    hide Acceptable, LocalAccepts;
  }

  lemma StepTraced(j: Job, lim: Limits, cl: Cluster, s: State, act: Action)
    requires ValidJob(j) && |cl.hops| == |j.hops| == |s.hops|
    requires Inv(j, lim, cl, s) && Enabled(j, lim, s, act) && Traced(j, cl, s)
    ensures Traced(j, cl, Apply(j, s, act))
  {
    match ActorOf(act) {
      case None =>
        hide Inv, Traced, ThreadsInv, EnabledCoordinator, ProducerStep, SenderStep, ReaderStep;
        ThreadsOf(j, lim, cl, s);
        assert ThreadsInv(j, lim, cl, s) by { ThreadsTogether(j, lim, cl, s); }
        ProducerStepTraced(j, lim, cl, s, act);
        OthersTraced(j, lim, cl, s, act);
      case Some(h) =>
        hide Inv, Traced, Apply, Enabled;
        ActorInRange(j, lim, s, act);
        HopStepTraced(j, lim, cl, s, h, act);
    }
  }

  lemma ThreadsTogether(j: Job, lim: Limits, cl: Cluster, s: State)
    requires ValidJob(j) && |cl.hops| == |j.hops| == |s.hops| && Inv(j, lim, cl, s)
    ensures ThreadsInv(j, lim, cl, s)
  {
    hide ProducerInv, SenderInv, ReaderInv, HopInv;
  }

  lemma {:induction false} RunTraced(j: Job, lim: Limits, cl: Cluster, s: State, run: seq<Action>)
    requires ValidJob(j) && |cl.hops| == |j.hops| == |s.hops|
    requires Inv(j, lim, cl, s) && ValidRun(j, lim, s, run) && Traced(j, cl, s)
    ensures Traced(j, cl, After(j, s, run))
    decreases |run|
  {
    hide Inv, Enabled, Apply, Traced;
    if run != [] {
      OneStep(j, lim, s, run[0]);
      EveryRunKeepsInv(j, lim, cl, s, [run[0]]);
      StepTraced(j, lim, cl, s, run[0]);
      RunTraced(j, lim, cl, Apply(j, s, run[0]), run[1..]);
    }
  }

  lemma StartTraced(j: Job, cl: Cluster, up: bool)
    requires ValidJob(j) && |cl.hops| == |j.hops|
    ensures Traced(j, cl, Start(cl, up))
  {
  }

  /** Once the reader has exited nothing changes what it reports. */
  lemma {:induction false} DoneReaderStays(j: Job, lim: Limits, s: State, run: seq<Action>)
    requires ValidJob(j) && |s.hops| == |j.hops| && ValidRun(j, lim, s, run) && s.read.done
    ensures After(j, s, run).read == s.read
    decreases |run|
  {
    hide ApplyHop, ApplyNext, EnabledMiddle, EnabledAny, LocalHidden, LocalSucceeds, LocalAfter, FrameOf, Acceptable;
    if run != [] {
      assert Apply(j, s, run[0]).read == s.read;
      DoneReaderStays(j, lim, Apply(j, s, run[0]), run[1..]);
    }
  }

  /** The first hop's own steps, and that no other part of the state moves with them but the second hop. */
  lemma FirstHopStep(j: Job, s: State, act: Action)
    requires ValidJob(j) && |s.hops| == |j.hops| && ActorOf(act) == Some(0)
    ensures var s' := Apply(j, s, act);
      && s' == s.(hops := s'.hops)
      && s'.hops[0] == ApplyHop(j, 0, s.hops[0], if |s.hops| > 1 then Some(s.hops[1]) else None, act)
  {
    hide ApplyHop, ApplyNext, ActorOf;
  }

  /** One more step behind a run. */
  lemma Then(j: Job, lim: Limits, s: State, run: seq<Action>, act: Action) returns (longer: seq<Action>, s': State)
    requires ValidJob(j) && |s.hops| == |j.hops| && ValidRun(j, lim, s, run) && Enabled(j, lim, After(j, s, run), act)
    ensures longer == run + [act] && ValidRun(j, lim, s, longer)
    ensures s' == After(j, s, longer) == Apply(j, After(j, s, run), act)
  {
    hide Enabled, Apply;
    OneStep(j, lim, After(j, s, run), act);
    RunsJoin(j, lim, s, run, [act]);
    longer := run + [act];
    s' := After(j, s, longer);
  }

  lemma {:induction false} RunsJoin(j: Job, lim: Limits, s: State, a: seq<Action>, b: seq<Action>)
    requires ValidJob(j) && |s.hops| == |j.hops| && ValidRun(j, lim, s, a) && ValidRun(j, lim, After(j, s, a), b)
    ensures ValidRun(j, lim, s, a + b) && After(j, s, a + b) == After(j, After(j, s, a), b)
    decreases |a|
  {
    hide Enabled, Apply;
    if a == [] {
      assert [] + b == b;
    } else {
      assert (a + b)[1..] == a[1..] + b;
      RunsJoin(j, lim, Apply(j, s, a[0]), a[1..], b);
    }
  }

  /** The first chunk is evaluated locally and queued. */
  lemma FirstChunkQueued(j: Job, lim: Limits, cl: Cluster) returns (run: seq<Action>, s: State)
    requires ValidJob(j) && ValidLimits(lim) && |cl.hops| == |j.hops| && j.count > 0 && LocalAccepts(j, cl, 0)
    ensures |Init(cl).hops| == |j.hops| && ValidRun(j, lim, Init(cl), run) && s == After(j, Init(cl), run)
    ensures s.read == Init(cl).read && s.hops == Init(cl).hops
    ensures exists w :: s.send == Sender(SWait, [w], false, false, false) && w.request == j.firstRequest
  {
    hide LocalHidden, LocalAfter, LocalSucceeds, ValidRun, After;
    InitLen(cl);
    var s0 := Init(cl);
    StandsStill(j, lim, s0);
    run, s := Then(j, lim, s0, [], PWindow);
    run, s := Then(j, lim, s0, run, PTake);
    FirstChunkWorks(j, cl, s.prod);
    run, s := Then(j, lim, s0, run, PLocal(ResetWorks, EvalWorks));
    var w := FrameOf(j, 0, s.prod.pc.hidden);
    run, s := Then(j, lim, s0, run, PPut);
    assert s.send == Sender(SWait, [w], false, false, false) && w.request == j.firstRequest;
  }

  lemma StandsStill(j: Job, lim: Limits, s: State)
    requires ValidJob(j) && |s.hops| == |j.hops|
    ensures ValidRun(j, lim, s, []) && After(j, s, []) == s
  {
  }

  lemma FirstChunkWorks(j: Job, cl: Cluster, p: Producer)
    requires ValidJob(j) && |cl.hops| == |j.hops| && LocalAccepts(j, cl, 0) && p.submitted == 0 && p.local == cl.local
    ensures LocalSucceeds(j, p, ResetWorks, EvalWorks)
  {
  }

  /** A hop that has done nothing yet and has one frame to read. */
  predicate Untouched(a: Hop, request: nat) {
    && a.link.open && a.link.up == Channel([], 0) && |a.link.down.log| == 1 && a.link.down.taken == 0
    && a.link.down.log[0].request == request
    && a.rx.RxRun? && a.jobs == [] && !a.jobsClosed && a.ev.EvIdle?
  }

  /** It is written. */
  lemma FirstFrameWritten(j: Job, lim: Limits, cl: Cluster) returns (run: seq<Action>, s: State)
    requires ValidJob(j) && ValidLimits(lim) && |cl.hops| == |j.hops| && j.count > 0 && LocalAccepts(j, cl, 0)
    ensures |Init(cl).hops| == |j.hops| && ValidRun(j, lim, Init(cl), run) && s == After(j, Init(cl), run)
    ensures s.read == Init(cl).read && Untouched(s.hops[0], j.firstRequest)
  {
    hide ValidRun, After, LocalAccepts;
    run, s := FirstChunkQueued(j, lim, cl);
    run, s := Then(j, lim, Init(cl), run, SStep);
    run, s := Then(j, lim, Init(cl), run, SWrite);
  }

  /** The first hop reads it and takes it as a job. */
  lemma FirstFrameTaken(j: Job, lim: Limits, cl: Cluster) returns (run: seq<Action>, s: State)
    requires ValidJob(j) && ValidLimits(lim) && |cl.hops| == |j.hops| && j.count > 0 && LocalAccepts(j, cl, 0)
    ensures |Init(cl).hops| == |j.hops| && ValidRun(j, lim, Init(cl), run) && s == After(j, Init(cl), run)
    ensures s.read == Init(cl).read && s.hops[0].link.open && s.hops[0].link.up == Channel([], 0)
    ensures s.hops[0].ev.EvIdle? && |s.hops[0].jobs| == 1 && s.hops[0].jobs[0].request == j.firstRequest
  {
    hide ValidRun, After, Apply, Init, LocalAccepts, TakeJob, ForwardEffect, RelayEffect, AnswerEffect;
    var s0 := Init(cl);
    run, s := FirstFrameWritten(j, lim, cl);
    FirstHopStep(j, s, RxRead(0));
    run, s := Then(j, lim, s0, run, RxRead(0));
    FirstHopStep(j, s, RxPut(0));
    run, s := Then(j, lim, s0, run, RxPut(0));
  }

  lemma FailingEval(e: SliceEngine, ws: WorkerSession, w: Work, kv: Kv)
    ensures !Evaluates(e, ws, w, ResetWorks, EvalFails(kv))
  {
    hide HashMetadataOk, Prepare;
  }

  /** The worker's slice fails on it, and the worker answers with an error. */
  lemma FirstFrameFails(j: Job, lim: Limits, cl: Cluster) returns (run: seq<Action>, s: State)
    requires ValidJob(j) && ValidLimits(lim) && |cl.hops| == |j.hops| && j.count > 0 && LocalAccepts(j, cl, 0)
    ensures |Init(cl).hops| == |j.hops| && ValidRun(j, lim, Init(cl), run) && s == After(j, Init(cl), run)
    ensures s.read == Init(cl).read && s.hops[0].link.up == Channel([Failure(j.firstRequest)], 0)
  {
    hide ValidRun, After, Apply, Init, LocalAccepts, Found, Evaluates, Prepare, RunWork, Forwarded, LastPayload,
         RxEffect, ForwardEffect, RelayEffect;
    var s0, kv := Init(cl), j.hops[0].emptyKv;
    var take := EvTake(0, false, ResetWorks, EvalFails(kv));
    run, s := FirstFrameTaken(j, lim, cl);
    FailingEval(j.hops[0], Found(j, 0, s.hops[0].popped, s.hops[0].session), s.hops[0].jobs[0], kv);
    FirstHopStep(j, s, take);
    run, s := Then(j, lim, s0, run, take);
    FirstHopStep(j, s, EvAnswer(0));
    run, s := Then(j, lim, s0, run, EvAnswer(0));
  }

  /** The coordinator reads the error. */
  lemma ReadsError(j: Job, lim: Limits, s: State)
    requires ValidJob(j) && |s.hops| == |j.hops| && s.read == Reader(0, false, false, false, None)
    requires s.hops[0].link.up == Channel([Failure(j.firstRequest)], 0)
    ensures Enabled(j, lim, s, RRead) && Apply(j, s, RRead).read.done && EndsInRemoteError(Apply(j, s, RRead))
  {
  }

  lemma RemoteErrorRun(j: Job, lim: Limits, cl: Cluster) returns (run: seq<Action>)
    requires ValidJob(j) && ValidLimits(lim) && |cl.hops| == |j.hops| && j.count > 0 && LocalAccepts(j, cl, 0)
    ensures Completes(j, cl, true, lim, run) && EndsInRemoteError(After(j, Start(cl, true), run))
  {
    hide Inv, Live, ValidRun, After, Apply, Enabled, Finished, Undisturbed;
    var s: State;
    run, s := FirstFrameFails(j, lim, cl);
    var s0 := Init(cl);
    hide Init;
    ReadsError(j, lim, s);
    run, s := Then(j, lim, s0, run, RRead);
    StartHasInvariants(j, lim, cl, true);
    EveryRunStaysLive(j, lim, cl, s0, run);
    var rest := FinishFrom(j, lim, cl, s);
    RunsJoin(j, lim, s0, run, rest);
    DoneReaderStays(j, lim, s, rest);
    run := run + rest;
  }

  /** A pipelined prefill can end in a worker's error answer, the outcome that keeps the plan, if and only if its first
      socket is up and the coordinator's own slice accepts the first chunk. */
  lemma SomeRunEndsInRemoteErrorIff(j: Job, lim: Limits, cl: Cluster, up: bool)
    requires ValidJob(j) && ValidLimits(lim) && |cl.hops| == |j.hops| && j.count > 0
    ensures (exists run :: Completes(j, cl, up, lim, run) && EndsInRemoteError(After(j, Start(cl, up), run)))
       <==> up && LocalAccepts(j, cl, 0)
  {
    hide Inv, Live, ValidRun, After, Finished, Init, LocalAccepts, Completes;
    forall run | Completes(j, cl, up, lim, run) && EndsInRemoteError(After(j, Start(cl, up), run))
      ensures up && LocalAccepts(j, cl, 0)
    {
      RemoteErrorWasAsked(j, lim, cl, up, run);
    }
    if up && LocalAccepts(j, cl, 0) {
      var run := RemoteErrorRun(j, lim, cl);
    }
  }

  lemma RemoteErrorWasAsked(j: Job, lim: Limits, cl: Cluster, up: bool, run: seq<Action>)
    requires ValidJob(j) && |cl.hops| == |j.hops| && Completes(j, cl, up, lim, run)
    requires EndsInRemoteError(After(j, Start(cl, up), run))
    ensures up && LocalAccepts(j, cl, 0)
  {
    hide Inv, Live, ValidRun, After, Finished, Init, LocalAccepts, CloseFirst;
    var s := After(j, Start(cl, up), run);
    StartHasInvariants(j, lim, cl, up);
    StartTraced(j, cl, up);
    RunTraced(j, lim, cl, Start(cl, up), run);
    CompleteRun(j, cl, up, lim, run);
    SentWasEvaluated(j, lim, cl, s, 0);
    if !up {
      StartIsSilent(cl);
      RunStaysSilent(j, lim, cl, Start(cl, up), run);
    }
  }
}
