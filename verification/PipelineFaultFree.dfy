/** Pipelined runs without faults: they succeed exactly when the plain loop does. */
module PipelineFaultFree {
  import opened Wire
  import opened TokenHash
  import opened Engine
  import opened WorkerSessions
  import opened Prefill
  import opened Pipeline
  import opened PipelineSafety
  import opened PipelineTheorems
  import opened PipelineProgress

  /** Every check of the plain loop passes. */
  ghost predicate AllAccept(j: Job, cl: Cluster)
    requires ValidJob(j) && |cl.hops| == |j.hops|
  {
    && (forall i :: 0 <= i < j.count ==> LocalAccepts(j, cl, i))
    && (forall h, i :: 0 <= h < |j.hops| && 0 <= i < j.count ==> Accepts(j, cl, h, i))
  }

  // ---------------------------------------------------------------- what such a run keeps

  ghost predicate HopHealthy(j: Job, cl: Cluster, a: Hop)
    requires ValidJob(j) && |cl.hops| == |j.hops|
  {
    && a.link.open && !a.broken
    && (a.ev.EvReply? ==> !a.ev.thenClose)
    && forall p :: 0 <= p < |a.link.up.log| ==> a.link.up.log[p] == ResultAt(j, cl, p)
  }

  /** The pending requests are those sent on and not answered, in order, and results are relayed as they come. */
  ghost predicate PairHealthy(j: Job, a: Hop, taken: nat) {
    && !a.ev.EvReply?
    && !a.fwd.relay.RlDone?
    && (a.fwd.relay.RlHold? ==> !a.fwd.relay.r.failed && !a.fwd.relay.thenExit)
    && forall k :: 0 <= k < |a.fwd.pending| ==> a.fwd.pending[k] == j.firstRequest + taken + k
  }

  ghost predicate ThreadsHealthy(s: State) {
    !s.prod.failed && !s.send.stop && !s.send.failed && !s.read.failed
  }

  ghost predicate Healthy(j: Job, cl: Cluster, s: State)
    requires ValidJob(j) && |cl.hops| == |j.hops| == |s.hops|
  {
    && ThreadsHealthy(s)
    && (forall h :: 0 <= h < |s.hops| ==> HopHealthy(j, cl, s.hops[h]))
    && (forall h :: 0 <= h && h + 1 < |s.hops| ==> PairHealthy(j, s.hops[h], s.hops[h + 1].link.up.taken))
  }

  lemma {:induction false} CleanWhenNoneFailed(log: seq<Result>)
    requires forall p :: 0 <= p < |log| ==> !log[p].failed
    ensures CleanLen(log) == |log| && !Tainted(log)
  {
    if log != [] {
      assert forall p :: 0 <= p < |log[1..]| ==> log[1..][p] == log[p + 1];
      CleanWhenNoneFailed(log[1..]);
    }
  }

  lemma HealthyIsClean(j: Job, cl: Cluster, a: Hop)
    requires ValidJob(j) && |cl.hops| == |j.hops| && HopHealthy(j, cl, a)
    ensures CleanLen(a.link.up.log) == |a.link.up.log| && !Tainted(a.link.up.log)
  {
    hide CleanLen;
    CleanWhenNoneFailed(a.link.up.log);
  }

  // ---------------------------------------------------------------- steps of one hop

  /** A job that a healthy hop takes is evaluated. */
  lemma TakeWorks(j: Job, cl: Cluster, h: nat, a: Hop)
    requires ValidJob(j) && |cl.hops| == |j.hops| && h < |j.hops|
    requires CountsInv(a) && ContentInv(j, cl, h, true, a) && !a.broken && a.jobs != []
    requires Accepts(j, cl, h, a.popped)
    ensures Evaluates(j.hops[h], Found(j, h, a.popped, a.session), a.jobs[0], ResetWorks, EvalWorks)
    ensures a.jobs[0].request == j.firstRequest + a.popped
  {
    hide Evaluates, CleanLen, HopAt, SessionRun;
    assert a.jobs[0] == a.link.down.log[a.popped];
  }

  lemma TakeStaysHealthy(j: Job, cl: Cluster, h: nat, a: Hop, act: Action)
    requires ValidJob(j) && |cl.hops| == |j.hops| && h < |j.hops|
    requires act.EvTake? && Works(act) && a.jobs != []
    requires Evaluates(j.hops[h], Found(j, h, a.popped, a.session), a.jobs[0], ResetWorks, EvalWorks)
    requires HopHealthy(j, cl, a)
    ensures HopHealthy(j, cl, TakeJob(j, h, a, act.refuse, act.ro, act.eo))
    ensures forall taken: nat :: h + 1 < |j.hops| && PairHealthy(j, a, taken) ==>
      PairHealthy(j, TakeJob(j, h, a, act.refuse, act.ro, act.eo), taken)
  {
    hide Evaluates, RunWork, SessionRun, Prepare, LastPayload, Forwarded, ResultAt;
  }

  lemma QuietStepHealthy(j: Job, lim: Limits, cl: Cluster, a: Hop, act: Action)
    requires ValidJob(j) && |cl.hops| == |j.hops|
    requires act.RxRead? || act.RxPut? || act.RxEof?
    requires EnabledAny(lim, a, act) && HopHealthy(j, cl, a) && Alive(a)
    ensures HopHealthy(j, cl, RxEffect(a, act))
    ensures forall taken: nat :: PairHealthy(j, a, taken) ==> PairHealthy(j, RxEffect(a, act), taken)
  {
    hide ResultAt;
  }

  lemma LastAnswerHealthy(j: Job, lim: Limits, cl: Cluster, a: Hop, act: Action)
    requires ValidJob(j) && |cl.hops| == |j.hops|
    requires act.EvExit? || act.EvAnswer? || act.Teardown?
    requires EnabledAny(lim, a, act) && HopHealthy(j, cl, a) && Alive(a) && LastInv(j, cl, true, a)
    ensures HopHealthy(j, cl, AnswerEffect(a, act))
  {
    hide CleanLen, ResultAt;
  }

  lemma ForwardHealthy(j: Job, lim: Limits, cl: Cluster, h: nat, a: Hop, b: Hop, act: Action)
    requires ValidJob(j) && |cl.hops| == |j.hops| && h + 1 < |j.hops|
    requires act.EvTrack? || act.EvWrite?
    requires EnabledMiddle(lim, a, b, act) && HopHealthy(j, cl, a) && Alive(a) && Balance(a, b) && b.link.open
    requires PairInv(j, cl, h, true, a, b) && PairHealthy(j, a, b.link.up.taken)
    ensures HopHealthy(j, cl, ForwardEffect(a, act)) && PairHealthy(j, ForwardEffect(a, act), b.link.up.taken)
  {
    hide CleanLen, ResultAt, RelayInv, HiddenInto;
  }

  /** The relay finds the request it expects, and passes the result of the plain loop on. */
  lemma RelayHealthy(j: Job, lim: Limits, cl: Cluster, h: nat, a: Hop, b: Hop, act: Action)
    requires ValidJob(j) && |cl.hops| == |j.hops| && h + 1 < |j.hops|
    requires act.RlRead? || act.RlWrite?
    requires EnabledMiddle(lim, a, b, act) && HopHealthy(j, cl, a) && HopHealthy(j, cl, b) && Balance(a, b)
    requires CountsInv(b)
    requires PairInv(j, cl, h, true, a, b) && PairHealthy(j, a, b.link.up.taken)
    ensures HopHealthy(j, cl, RelayEffect(a, b, act))
    ensures PairHealthy(j, RelayEffect(a, b, act), ApplyNext(a, b, act).link.up.taken)
  {
    hide CleanLen, FrameAt;
    HealthyIsClean(j, cl, a);
    HealthyIsClean(j, cl, b);
    if act.RlRead? {
      assert b.link.up.Next() == ResultAt(j, cl, b.link.up.taken);
    }
  }

  // ---------------------------------------------------------------- one step of the whole system

  /** In a healthy state every hop is sound, and jobs waiting at a hop are chunks of the prompt. */
  lemma HealthyHop(j: Job, lim: Limits, cl: Cluster, s: State, h: nat)
    requires ValidJob(j) && |cl.hops| == |j.hops| == |s.hops| && h < |s.hops|
    requires Inv(j, lim, cl, s) && Live(s) && Healthy(j, cl, s)
    ensures CountsInv(s.hops[h]) && ContentInv(j, cl, h, true, s.hops[h]) && HopHealthy(j, cl, s.hops[h])
    ensures Alive(s.hops[h])
    ensures h + 1 < |s.hops| ==>
      && PairInv(j, cl, h, true, s.hops[h], s.hops[h + 1]) && Balance(s.hops[h], s.hops[h + 1])
      && PairHealthy(j, s.hops[h], s.hops[h + 1].link.up.taken)
    ensures h + 1 == |s.hops| ==> LastInv(j, cl, true, s.hops[h])
    ensures s.hops[h].jobs != [] ==> s.hops[h].popped < j.count
  {
    hide CleanLen, ContentInv, PairInv, LastInv, PairHealthy, ProducerInv, SenderInv, ReaderInv, Balance, LastBalance,
         Alive, ThreadsAlive, ThreadsHealthy, ResultAt;
    assert HopInv(j, cl, s, h);
    AllSound(j, cl, s, h);
    SentWasEvaluated(j, lim, cl, s, h);
    SubmittedBound(j, lim, cl, s);
  }

  lemma AllSound(j: Job, cl: Cluster, s: State, h: nat)
    requires ValidJob(j) && |cl.hops| == |j.hops| == |s.hops| && h < |s.hops| && Healthy(j, cl, s)
    ensures Sound(s, h)
  {
    hide ResultAt;
  }

  lemma SubmittedBound(j: Job, lim: Limits, cl: Cluster, s: State)
    requires ValidJob(j) && |cl.hops| == |j.hops| == |s.hops| && Inv(j, lim, cl, s)
    ensures s.prod.submitted <= j.count
  {
    hide SenderInv, ReaderInv, HopInv;
  }

  lemma LastStepHealthy(j: Job, lim: Limits, cl: Cluster, s: State, act: Action)
    requires ValidJob(j) && |cl.hops| == |j.hops| == |s.hops| && AllAccept(j, cl)
    requires Inv(j, lim, cl, s) && Live(s) && Healthy(j, cl, s)
    requires ActorOf(act) == Some(|s.hops| - 1) && EnabledAny(lim, s.hops[|s.hops| - 1], act) && !IsFault(s, act)
    requires Works(act)
    ensures HopHealthy(j, cl, ApplyHop(j, |s.hops| - 1, s.hops[|s.hops| - 1], None, act))
  {
    hide CountsInv, ContentInv, LastInv, HopHealthy, PairHealthy, Alive, Balance, RxEffect, AnswerEffect, TakeJob,
         ForwardEffect, RelayEffect, Inv, Live, Healthy, PairInv, Accepts;
    var h, a := |s.hops| - 1, s.hops[|s.hops| - 1];
    HealthyHop(j, lim, cl, s, h);
    OpenOf(j, cl, a);
    if act.EvTake? {
      TakeWorks(j, cl, h, a);
      TakeStaysHealthy(j, cl, h, a, act);
    } else if act.RxRead? || act.RxPut? || act.RxEof? {
      QuietStepHealthy(j, lim, cl, a, act);
    } else {
      LastAnswerHealthy(j, lim, cl, a, act);
    }
  }

  lemma OpenOf(j: Job, cl: Cluster, a: Hop)
    requires ValidJob(j) && |cl.hops| == |j.hops| && HopHealthy(j, cl, a)
    ensures a.link.open && !a.broken
  {
  }

  lemma MiddleStepHealthy(j: Job, lim: Limits, cl: Cluster, s: State, h: nat, act: Action)
    requires ValidJob(j) && |cl.hops| == |j.hops| == |s.hops| && h + 1 < |s.hops| && AllAccept(j, cl)
    requires Inv(j, lim, cl, s) && Live(s) && Healthy(j, cl, s)
    requires ActorOf(act) == Some(h) && EnabledMiddle(lim, s.hops[h], s.hops[h + 1], act) && !IsFault(s, act)
    requires Works(act)
    ensures var a', b' := ApplyHop(j, h, s.hops[h], Some(s.hops[h + 1]), act), ApplyNext(s.hops[h], s.hops[h + 1], act);
      HopHealthy(j, cl, a') && PairHealthy(j, a', b'.link.up.taken) && b'.link.open
  {
    hide CountsInv, ContentInv, PairInv, HopHealthy, Balance, RxEffect, AnswerEffect, TakeJob, ForwardEffect,
         RelayEffect, Inv, Live, Healthy, LastInv, Accepts;
    var a, b := s.hops[h], s.hops[h + 1];
    HealthyHop(j, lim, cl, s, h);
    HealthyHop(j, lim, cl, s, h + 1);
    OpenOf(j, cl, a);
    OpenOf(j, cl, b);
    if act.EvTake? {
      TakeWorks(j, cl, h, a);
      TakeStaysHealthy(j, cl, h, a, act);
    } else if act.RxRead? || act.RxPut? || act.RxEof? {
      QuietStepHealthy(j, lim, cl, a, act);
    } else if act.EvTrack? || act.EvWrite? {
      ForwardHealthy(j, lim, cl, h, a, b, act);
    } else {
      RelayHealthy(j, lim, cl, h, a, b, act);
    }
  }

  /** A hop whose socket was only read or written by its upstream stays healthy. */
  lemma TouchedStaysHealthy(j: Job, cl: Cluster, b: Hop, b': Hop)
    requires ValidJob(j) && |cl.hops| == |j.hops|
    requires HopHealthy(j, cl, b) && SameButSocket(b, b') && b'.link.open
    ensures HopHealthy(j, cl, b')
    ensures forall taken: nat :: PairHealthy(j, b, taken) ==> PairHealthy(j, b', taken)
  {
    hide ResultAt;
  }

  lemma HopActionHealthy(j: Job, lim: Limits, cl: Cluster, s: State, h: nat, act: Action)
    requires ValidJob(j) && |cl.hops| == |j.hops| == |s.hops| && h < |s.hops| && AllAccept(j, cl)
    requires Inv(j, lim, cl, s) && Live(s) && Healthy(j, cl, s)
    requires ActorOf(act) == Some(h) && Enabled(j, lim, s, act) && !IsFault(s, act) && Works(act)
    ensures Healthy(j, cl, Apply(j, s, act))
  {
    hide CountsInv, ContentInv, PairInv, LastInv, HopHealthy, PairHealthy, EnabledMiddle, EnabledAny, ApplyHop,
         ApplyNext, ActorOf, IsFault, Inv, Live, Sound, SameButSocket, AllAccept, FrameAt;
    var s' := Apply(j, s, act);
    HopActionShape(j, lim, cl, s, h, act);
    if h + 1 < |s.hops| {
      MiddleStepHealthy(j, lim, cl, s, h, act);
      TouchedStaysHealthy(j, cl, s.hops[h + 1], s'.hops[h + 1]);
    } else {
      LastStepHealthy(j, lim, cl, s, act);
    }
  }

  // ---------------------------------------------------------------- one step of the coordinator

  lemma ProducerHealthy(j: Job, lim: Limits, cl: Cluster, s: State, act: Action)
    requires ValidJob(j) && |cl.hops| == |j.hops| == |s.hops| && AllAccept(j, cl)
    requires ProducerInv(j, lim, cl, s) && ReaderInv(j, s) && ThreadsHealthy(s) && s.read.accepted <= s.prod.submitted
    requires ProducerAction(act) && EnabledCoordinator(j, lim, s, act) && Works(act)
    ensures ThreadsHealthy(ProducerStep(j, s, act)) && ProducerStep(j, s, act).hops == s.hops
  {
    hide CleanLen, Acceptable, LocalAt, HiddenInto, LocalHidden, LocalAfter, FrameOf, Accepts;
    if act.PLocal? {
      assert LocalAccepts(j, cl, s.prod.submitted);
      LocalWorks(j, cl, s.prod, act.ro, act.eo);
    }
    hide LocalAccepts, LocalSucceeds;
  }

  lemma LocalWorks(j: Job, cl: Cluster, p: Producer, ro: ResetOutcome, eo: EvalOutcome)
    requires ValidJob(j) && |cl.hops| == |j.hops|
    requires p.local == LocalAt(j, cl, p.submitted) && LocalAccepts(j, cl, p.submitted) && ro.ResetWorks?
    requires eo.EvalWorks?
    ensures LocalSucceeds(j, p, ro, eo)
  {
  }

  lemma SenderHealthy(j: Job, lim: Limits, cl: Cluster, s: State, act: Action)
    requires ValidJob(j) && |cl.hops| == |j.hops| == |s.hops|
    requires ThreadsHealthy(s) && s.hops[0].link.open
    requires act.SStep? || act.SWrite? || act.SPop?
    ensures ThreadsHealthy(SenderStep(s, act)) && SenderStep(s, act).hops[0].link.open
  {
  }

  /** The reader finds the answer it expects. */
  lemma ResultsAreAcceptable(j: Job, cl: Cluster, i: nat)
    requires ValidJob(j) && |cl.hops| == |j.hops| && i < j.count
    ensures Acceptable(j, i, ResultAt(j, cl, i))
  {
    hide HiddenInto, HopReady, HashAt;
  }

  lemma ReaderHealthy(j: Job, lim: Limits, cl: Cluster, s: State, act: Action)
    requires ValidJob(j) && |cl.hops| == |j.hops| == |s.hops|
    requires ReaderInv(j, s) && ThreadsHealthy(s) && HopHealthy(j, cl, s.hops[0])
    requires act.RRead? && EnabledCoordinator(j, lim, s, act)
    ensures ThreadsHealthy(ReaderStep(j, s, act)) && ReaderStep(j, s, act).hops[0].link.open
  {
    hide CleanLen, Acceptable, ResultAt;
    ResultsAreAcceptable(j, cl, s.read.accepted);
    assert s.hops[0].link.up.Next() == ResultAt(j, cl, s.read.accepted);
  }

  lemma CoordinatorActionHealthy(j: Job, lim: Limits, cl: Cluster, s: State, act: Action)
    requires ValidJob(j) && |cl.hops| == |j.hops| == |s.hops| && AllAccept(j, cl)
    requires Inv(j, lim, cl, s) && Live(s) && Healthy(j, cl, s)
    requires ActorOf(act) == None && Enabled(j, lim, s, act) && !IsFault(s, act) && Works(act)
    ensures Healthy(j, cl, Apply(j, s, act))
  {
    hide Inv, Live, HopInv, ProducerInv, SenderInv, ReaderInv, CountsInv, HopHealthy, PairHealthy, ThreadsHealthy,
         FirstTouched, AllAccept, ProducerStep, SenderStep, ReaderStep, EnabledCoordinator, EnabledMiddle, EnabledAny,
         IsFault, Works;
    ThreadsOf(j, lim, cl, s);
    HealthyHop(j, lim, cl, s, 0);
    OpenOf(j, cl, s.hops[0]);
    if ProducerAction(act) {
      AcceptedWasSubmitted(j, lim, cl, s);
      ProducerHealthy(j, lim, cl, s, act);
    } else {
      SocketStepHealthy(j, lim, cl, s, act);
      StillHealthy(j, cl, s, Apply(j, s, act));
    }
  }

  lemma StillHealthy(j: Job, cl: Cluster, s: State, s': State)
    requires ValidJob(j) && |cl.hops| == |j.hops| == |s.hops| && Healthy(j, cl, s)
    requires ThreadsHealthy(s') && FirstTouched(j, cl, s, s') && s'.hops[0].link.open
    ensures |s'.hops| == |s.hops| && Healthy(j, cl, s')
  {
    hide HopHealthy, PairHealthy, ThreadsHealthy, FirstTouched, SameButSocket;
    FirstTouchedHealthy(j, cl, s, s');
  }

  lemma SocketStepHealthy(j: Job, lim: Limits, cl: Cluster, s: State, act: Action)
    requires ValidJob(j) && |cl.hops| == |j.hops| == |s.hops|
    requires ThreadsInv(j, lim, cl, s) && CountsInv(s.hops[0]) && ThreadsHealthy(s) && HopHealthy(j, cl, s.hops[0])
    requires s.hops[0].link.open
    requires ActorOf(act) == None && !ProducerAction(act) && EnabledCoordinator(j, lim, s, act) && !IsFault(s, act)
    ensures ThreadsHealthy(Apply(j, s, act)) && FirstTouched(j, cl, s, Apply(j, s, act))
    ensures Apply(j, s, act).hops[0].link.open
  {
    hide ProducerInv, SenderInv, ReaderInv, CountsInv, HopHealthy, ThreadsHealthy, FirstTouched, ProducerStep,
         SenderStep, ReaderStep;
    if act.RRead? || act.REof? {
      ReaderHealthy(j, lim, cl, s, act);
      ReaderTouchesFirst(j, lim, cl, s, act);
    } else {
      SenderHealthy(j, lim, cl, s, act);
      SenderKeepsItself(j, lim, cl, s, act);
    }
  }

  lemma AcceptedWasSubmitted(j: Job, lim: Limits, cl: Cluster, s: State)
    requires ValidJob(j) && |cl.hops| == |j.hops| == |s.hops| && Inv(j, lim, cl, s)
    ensures s.read.accepted <= s.prod.submitted
  {
    hide Inv, HopInv, ProducerInv, SenderInv, CleanLen, Acceptable;
    ThreadsOf(j, lim, cl, s);
    CleanResultsWereEvaluated(j, lim, cl, s, 0);
    SentWasEvaluated(j, lim, cl, s, 0);
  }

  lemma FirstTouchedHealthy(j: Job, cl: Cluster, s: State, s': State)
    requires ValidJob(j) && |cl.hops| == |j.hops| == |s.hops|
    requires FirstTouched(j, cl, s, s') && s'.hops[0].link.open && HopHealthy(j, cl, s.hops[0])
    ensures HopHealthy(j, cl, s'.hops[0]) && |s'.hops| == |s.hops|
    ensures forall k :: 1 <= k < |s.hops| ==> s'.hops[k] == s.hops[k]
    ensures forall taken: nat :: PairHealthy(j, s.hops[0], taken) ==> PairHealthy(j, s'.hops[0], taken)
  {
    hide FrameAt, HopHealthy, PairHealthy;
    TouchedStaysHealthy(j, cl, s.hops[0], s'.hops[0]);
  }

  // ---------------------------------------------------------------- the whole run

  lemma InitIsHealthy(j: Job, cl: Cluster)
    requires ValidJob(j) && |cl.hops| == |j.hops|
    ensures Healthy(j, cl, Init(cl))
  {
  }

  lemma {:induction false} RunStaysHealthy(j: Job, lim: Limits, cl: Cluster, s: State, run: seq<Action>)
    requires ValidJob(j) && |cl.hops| == |j.hops| == |s.hops| && AllAccept(j, cl)
    requires Inv(j, lim, cl, s) && Live(s) && Healthy(j, cl, s)
    requires ValidRun(j, lim, s, run) && Undisturbed(j, s, run)
    ensures Healthy(j, cl, After(j, s, run))
    decreases |run|
  {
    hide Inv, Live, Healthy, AllAccept, Enabled, Apply, IsFault, Works;
    if run != [] {
      match ActorOf(run[0]) {
        case None =>
          CoordinatorActionHealthy(j, lim, cl, s, run[0]);
        case Some(h) =>
          ActorInRange(j, lim, s, run[0]);
          HopActionHealthy(j, lim, cl, s, h, run[0]);
      }
      OneStep(j, lim, s, run[0]);
      EveryRunStaysLive(j, lim, cl, s, [run[0]]);
      RunStaysHealthy(j, lim, cl, Apply(j, s, run[0]), run[1..]);
    }
  }

  lemma HealthyFinishSucceeds(j: Job, cl: Cluster, s: State)
    requires ValidJob(j) && |cl.hops| == |j.hops| == |s.hops| && Healthy(j, cl, s) && Finished(s)
    ensures Succeeded(s)
  {
  }

  // ---------------------------------------------------------------- when the plain loop works

  /** What the plain loop's hops accepted was acceptable. */
  lemma {:induction false} PassedWasAccepted(j: Job, cl: Cluster, hops: seq<WorkerSession>, h: nat, i: nat)
    requires ValidJob(j) && |cl.hops| == |j.hops| == |hops| && h < |j.hops|
    requires forall k :: h <= k < |j.hops| ==> hops[k] == HopAt(j, cl, k, i)
    requires PassThrough(j, hops, h, i, PlainFrame(j, cl, h, i)).Some?
    ensures forall k :: h <= k < |j.hops| ==> Accepts(j, cl, k, i)
    decreases |j.hops| - h
  {
    hide Evaluates, RunWork, SessionRun, Prepare, Forwarded, HopAt, HopReady, LastPayload, PlainFrame, Accepts;
    PlainAccepts(j, cl, h, i);
    AckChangesNothing(j, cl, h, i);
    if h + 1 < |j.hops| {
      PassedWasAccepted(j, cl, hops[h := HopAt(j, cl, h, i + 1)], h + 1, i);
    }
  }

  lemma PlainAccepts(j: Job, cl: Cluster, h: nat, i: nat)
    requires ValidJob(j) && |cl.hops| == |j.hops| && h < |j.hops|
    requires Evaluates(j.hops[h], HopFound(j, cl, h, i), PlainFrame(j, cl, h, i), ResetWorks, EvalWorks)
    ensures Accepts(j, cl, h, i)
  {
    hide HashSpan, HashPrefix, HopFound, FrameAt;
  }

  lemma SpanWasAccepted(j: Job, cl: Cluster, i: nat)
    requires ValidJob(j) && Precomputed(j) && |cl.hops| == |j.hops| && i < j.count
    requires !j.reset ==> cl.local.tokens == j.prompt[..j.start]
    requires EvalSpan(j, ClusterAt(j, cl, i), i).Some?
    ensures LocalAccepts(j, cl, i) && forall h :: 0 <= h < |j.hops| ==> Accepts(j, cl, h, i)
  {
    hide HopAt, Accepts, PassThrough, FinalLogits, PlainPayload, SpanPrefix, SpanFrame, PlainFrame;
    PlainPrefix(j, cl, i);
    PassedWasAccepted(j, cl, ClusterAt(j, cl, i).hops, 0, i);
  }

  lemma {:induction false} SpansWereAccepted(j: Job, cl: Cluster, i: nat, logits: Logits)
    requires ValidJob(j) && Precomputed(j) && |cl.hops| == |j.hops|
    requires !j.reset ==> cl.local.tokens == j.prompt[..j.start]
    requires EvalSpans(j, ClusterAt(j, cl, i), i, logits).Some?
    ensures forall k :: i <= k < j.count ==> LocalAccepts(j, cl, k)
    ensures forall h, k :: 0 <= h < |j.hops| && i <= k < j.count ==> Accepts(j, cl, h, k)
    decreases j.count - i
  {
    hide EvalSpan, FinalLogits, PlainPayload, ClusterAt, Accepts, LocalAccepts;
    if i < j.count {
      SpanWasAccepted(j, cl, i);
      PlainSpan(j, cl, i);
      SpansWereAccepted(j, cl, i + 1, FinalLogits(j, PlainPayload(j, cl, i), |Chunk(j, i)|));
    }
  }

  /** A complete pipelined prefill that no fault disturbs succeeds exactly when the plain loop over the same
      chunks does. */
  lemma UndisturbedRunsSucceedLikeThePlainLoop(j: Job, lim: Limits, cl: Cluster, run: seq<Action>, logits: Logits)
    requires ValidJob(j) && Precomputed(j) && ValidLimits(lim) && |cl.hops| == |j.hops|
    requires !j.reset ==> cl.local.tokens == j.prompt[..j.start]
    requires ValidRun(j, lim, Init(cl), run) && Undisturbed(j, Init(cl), run) && Finished(After(j, Init(cl), run))
    ensures Succeeded(After(j, Init(cl), run)) <==> EvalSpans(j, cl, 0, logits).Some?
  {
    hide Inv, Live, Healthy, ValidRun, Undisturbed, After, Finished, Succeeded, Init, EvalSpans, Accepts, LocalAccepts;
    InitLen(cl);
    if Succeeded(After(j, Init(cl), run)) {
      PipeliningPreservesMeaning(j, lim, cl, run, logits);
    }
    if EvalSpans(j, cl, 0, logits).Some? {
      ChunksCover(j, 0);
      TableStart(j, cl);
      SpansWereAccepted(j, cl, 0, logits);
      InitKeeps(j, lim, cl);
      InitIsLive(cl);
      InitIsHealthy(j, cl);
      RunStaysHealthy(j, lim, cl, Init(cl), run);
      HealthyFinishSucceeds(j, cl, After(j, Init(cl), run));
    }
  }
}
