/** The pipelined prefill never gets stuck: a measure falls with every step, faults included, and
    until all three coordinator threads have exited some thread can step without any fault. */
module PipelineProgress {
  import opened Wire
  import opened Engine
  import opened WorkerSessions
  import opened Prefill
  import opened Pipeline
  import opened PipelineSafety
  import opened PipelineTheorems

  // ---------------------------------------------------------------- the measure

  /** The weight of a frame travelling down to hop h of n; it falls by one with every queue it enters. */
  function DownWeight(n: nat, h: nat): int {
    2 * n + 5 * (n - h)
  }

  /** The weight of a result on its way up from hop h. */
  function UpWeight(h: nat): int {
    2 * h + 1
  }

  function RxWeight(n: nat, h: nat, rx: RxState): int {
    match rx
    case RxRun => 1
    case RxHold(_) => DownWeight(n, h)
    case RxDone => 0
  }

  function EvWeight(n: nat, h: nat, ev: EvState): int {
    match ev
    case EvIdle => 1
    case EvReply(_, _) => UpWeight(h) + 2
    case EvForward(_) => DownWeight(n, h) - 2
    case EvSending(_) => DownWeight(n, h) - 3
    case EvDone => 0
  }

  /** A running relay may still make up one last error. */
  function RelayWeight(h: nat, relay: RelayState): int {
    match relay
    case RlRun => UpWeight(h) + 2
    case RlHold(_, thenExit) => if thenExit then UpWeight(h) + 1 else 2 * UpWeight(h) + 3
    case RlDone => 0
  }

  function Flag(b: bool): int {
    if b then 1 else 0
  }

  function Times(weight: int, count: int): int {
    weight * count
  }

  lemma TimesSteps(weight: int, count: int)
    ensures Times(weight, count + 1) == Times(weight, count) + weight
    ensures Times(weight, count - 1) == Times(weight, count) - weight
    ensures Times(weight, 0) == 0
    ensures weight >= 0 && count >= 0 ==> Times(weight, count) >= 0
  {
  }

  /** The two directions of a hop's socket. */
  function LinkWeight(n: nat, h: nat, link: Link): int {
    Times(DownWeight(n, h), |link.down.log| - link.down.taken) + Times(UpWeight(h), |link.up.log| - link.up.taken)
      + Flag(link.open)
  }

  function HopWeight(n: nat, h: nat, a: Hop): int {
    LinkWeight(n, h, a.link) + RxWeight(n, h, a.rx) + Times(DownWeight(n, h) - 2, |a.jobs|)
    + EvWeight(n, h, a.ev) + RelayWeight(h, a.fwd.relay) + Flag(!a.fwd.closed)
  }

  function HopsWeight(hops: seq<Hop>, h: nat): int
    requires h <= |hops|
    decreases |hops| - h
  {
    if h == |hops| then 0 else HopWeight(|hops|, h, hops[h]) + HopsWeight(hops, h + 1)
  }

  function ProducerWeight(n: nat, count: nat, p: Producer): int {
    Times(DownWeight(n, 0) + 8, count - p.submitted) + PcWeight(p.pc)
  }

  function PcWeight(pc: ProducerState): int {
    match pc
    case PTop => 6
    case PAcquire => 5
    case PEval => 4
    case PEnqueue(_) => 3
    case PJoin => 2
    case PDrain => 1
    case PDone => 0
  }

  function SenderWeight(n: nat, d: Sender): int {
    Times(DownWeight(n, 0) + 4, |d.queue| - Wrote(d)) +
    match d.pc
    case SWait => 2
    case SBusy => 1
    case SWrote => 3
    case SDone => 0
  }

  /** How much can still happen. */
  function Measure(j: Job, s: State): int {
    ProducerWeight(|s.hops|, j.count, s.prod) + SenderWeight(|s.hops|, s.send) + Flag(!s.read.done)
      + HopsWeight(s.hops, 0)
  }

  lemma {:induction false} HopsWeightUpdate(hops: seq<Hop>, h: nat, k: nat, a: Hop)
    requires h <= |hops| && k < |hops|
    ensures HopsWeight(hops[k := a], h)
         == HopsWeight(hops, h) + if h <= k then HopWeight(|hops|, k, a) - HopWeight(|hops|, k, hops[k]) else 0
    decreases |hops| - h
  {
    hide HopWeight;
    if h < |hops| {
      HopsWeightUpdate(hops, h + 1, k, a);
    }
  }

  // ---------------------------------------------------------------- it falls with every step

  /** A hop step that only concerns the hop itself. */
  lemma OwnStepFalls(j: Job, lim: Limits, n: nat, h: nat, a: Hop, act: Action)
    requires h < |j.hops| && h < n && (h + 1 == |j.hops| ==> h + 1 == n)
    requires EnabledAny(lim, a, act) && !act.Teardown?
    ensures HopWeight(n, h, ApplyHop(j, h, a, None, act)) < HopWeight(n, h, a)
  {
    hide Times, Evaluates, RunWork, Prepare, Forwarded, LastPayload, Evaluates;
    TimesSteps(DownWeight(n, h), |a.link.down.log| - a.link.down.taken);
    TimesSteps(UpWeight(h), |a.link.up.log| - a.link.up.taken);
    TimesSteps(DownWeight(n, h) - 2, |a.jobs|);
    TimesSteps(DownWeight(n, h) - 2, 0);
  }

  lemma ForwardStepFalls(lim: Limits, n: nat, h: nat, a: Hop, b: Hop, act: Action)
    requires h + 1 < n && EnabledMiddle(lim, a, b, act) && ForwardStep(a, act)
    ensures HopWeight(n, h, ForwardEffect(a, act)) + HopWeight(n, h + 1, ApplyNext(a, b, act))
          < HopWeight(n, h, a) + HopWeight(n, h + 1, b)
  {
    hide Times;
    TimesSteps(DownWeight(n, h + 1), |b.link.down.log| - b.link.down.taken);
  }

  lemma RelayStepFalls(lim: Limits, n: nat, h: nat, a: Hop, b: Hop, act: Action)
    requires h + 1 < n && EnabledMiddle(lim, a, b, act) && RelayStep(a, b, act)
    ensures HopWeight(n, h, RelayEffect(a, b, act)) + HopWeight(n, h + 1, ApplyNext(a, b, act))
          < HopWeight(n, h, a) + HopWeight(n, h + 1, b)
  {
    hide Times, RelayEffect;
    RelayShape(a, b, act);
    if act.RlWrite? && a.fwd.relay.thenExit { RelayEnds(a, b, act); }
    TimesSteps(UpWeight(h), |a.link.up.log| - a.link.up.taken);
    TimesSteps(UpWeight(h + 1), |b.link.up.log| - b.link.up.taken);
  }

  /** A relay that was to exit after its last error does. */
  lemma RelayEnds(a: Hop, b: Hop, act: Action)
    requires act.RlWrite? && a.fwd.relay.RlHold? && a.fwd.relay.thenExit
    ensures RelayEffect(a, b, act).fwd.relay.RlDone?
  {
  }

  lemma TeardownFalls(lim: Limits, n: nat, h: nat, a: Hop, b: Hop, act: Action)
    requires h + 1 < n && EnabledMiddle(lim, a, b, act) && act.Teardown?
    ensures HopWeight(n, h, AnswerEffect(a, act)) + HopWeight(n, h + 1, ApplyNext(a, b, act))
          < HopWeight(n, h, a) + HopWeight(n, h + 1, b)
  {
    hide Times;
  }

  /** A step of a hop with a next hop, whose common socket it may touch. */
  lemma PairStepFalls(j: Job, lim: Limits, n: nat, h: nat, a: Hop, b: Hop, act: Action)
    requires h + 1 < |j.hops| == n
    requires ActorOf(act) == Some(h) && EnabledMiddle(lim, a, b, act)
    ensures HopWeight(n, h, ApplyHop(j, h, a, Some(b), act)) + HopWeight(n, h + 1, ApplyNext(a, b, act))
          < HopWeight(n, h, a) + HopWeight(n, h + 1, b)
  {
    hide HopWeight, RxEffect, ForwardEffect, RelayEffect, AnswerEffect, TakeJob;
    if ForwardStep(a, act) {
      ForwardStepFalls(lim, n, h, a, b, act);
    } else if RelayStep(a, b, act) {
      RelayStepFalls(lim, n, h, a, b, act);
    } else if act.Teardown? {
      TeardownFalls(lim, n, h, a, b, act);
    } else {
      OwnStepFalls(j, lim, n, h, a, act);
    }
  }

  predicate ProducerAction(act: Action) {
    act.PWindow? || act.PTake? || act.PLocal? || act.PPut? || act.PJoinSender? || act.PJoinReader?
  }

  lemma ProducerStepFalls(j: Job, lim: Limits, s: State, act: Action)
    requires ValidJob(j) && |s.hops| == |j.hops|
    requires ProducerAction(act) && EnabledCoordinator(j, lim, s, act)
    ensures Measure(j, ProducerStep(j, s, act)) < Measure(j, s)
  {
    hide HopsWeight, ProducerStep, CloseFirst, Times, DownWeight;
    var n := |s.hops|;
    ProducerShape(j, s, act);
    ProducerAdvances(j, lim, s, act);
    ClosingFalls(s);
    TimesSteps(DownWeight(n, 0) + 8, j.count - s.prod.submitted);
    TimesSteps(DownWeight(n, 0) + 4, |s.send.queue| - Wrote(s.send));
  }

  /** The producer's own state moves on, except that a submitted chunk starts the next one. */
  lemma ProducerAdvances(j: Job, lim: Limits, s: State, act: Action)
    requires ValidJob(j) && |s.hops| == |j.hops|
    requires ProducerAction(act) && EnabledCoordinator(j, lim, s, act)
    ensures var s' := ProducerStep(j, s, act);
      if s'.prod.submitted == s.prod.submitted then PcWeight(s'.prod.pc) < PcWeight(s.prod.pc)
      else s.prod.pc.PEnqueue? && s'.prod.pc == PTop
  {
    hide LocalHidden, LocalSucceeds, LocalAfter, FrameOf;
  }

  lemma ClosingFalls(s: State)
    requires |s.hops| >= 1
    ensures HopsWeight(CloseFirst(s).hops, 0) <= HopsWeight(s.hops, 0)
  {
    hide HopsWeight, Times;
    HopsWeightUpdate(s.hops, 0, 0, Close(s.hops[0]));
  }

  lemma SenderStepFalls(j: Job, lim: Limits, s: State, act: Action)
    requires |s.hops| >= 1 && EnabledCoordinator(j, lim, s, act)
    requires act.SStep? || act.SWrite? || act.SWriteFails? || act.SPop?
    ensures Measure(j, SenderStep(s, act)) < Measure(j, s)
  {
    hide HopsWeight, HopWeight, Times, UpWeight, DownWeight;
    var n := |s.hops|;
    var link := s.hops[0].link;
    var s' := SenderStep(s, act);
    FirstHopWeight(n, s.hops[0], s'.hops[0]);
    HopsWeightUpdate(s.hops, 0, 0, s'.hops[0]);
    TimesSteps(DownWeight(n, 0) + 4, |s.send.queue| - Wrote(s.send));
    TimesSteps(DownWeight(n, 0), |link.down.log| - link.down.taken);
  }

  lemma ReaderStepFalls(j: Job, lim: Limits, s: State, act: Action)
    requires |s.hops| >= 1 && EnabledCoordinator(j, lim, s, act)
    requires act.RRead? || act.REof?
    ensures Measure(j, ReaderStep(j, s, act)) < Measure(j, s)
  {
    hide HopsWeight, HopWeight, Times, Acceptable, DownWeight, ProducerWeight, SenderWeight;
    var n := |s.hops|;
    var link := s.hops[0].link;
    var s' := ReaderStep(j, s, act);
    assert s'.hops == s.hops[0 := s'.hops[0]];
    FirstHopWeight(n, s.hops[0], s'.hops[0]);
    HopsWeightUpdate(s.hops, 0, 0, s'.hops[0]);
    TimesSteps(UpWeight(0), |link.up.log| - link.up.taken);
  }

  lemma FirstHopWeight(n: nat, a: Hop, a': Hop)
    requires a' == a.(link := a'.link)
    ensures HopWeight(n, 0, a') - HopWeight(n, 0, a) == LinkWeight(n, 0, a'.link) - LinkWeight(n, 0, a.link)
  {
  }

  lemma HopActionFalls(j: Job, lim: Limits, s: State, h: nat, act: Action)
    requires ValidJob(j) && |s.hops| == |j.hops| && h < |s.hops|
    requires ActorOf(act) == Some(h) && Enabled(j, lim, s, act)
    ensures Measure(j, Apply(j, s, act)) < Measure(j, s)
  {
    hide HopsWeight, HopWeight, ApplyHop, ApplyNext, EnabledMiddle, EnabledAny, ActorOf, ProducerWeight, SenderWeight;
    var n := |s.hops|;
    if h + 1 < n {
      var a', b' := ApplyHop(j, h, s.hops[h], Some(s.hops[h + 1]), act), ApplyNext(s.hops[h], s.hops[h + 1], act);
      PairStepFalls(j, lim, n, h, s.hops[h], s.hops[h + 1], act);
      HopsWeightUpdate(s.hops, 0, h, a');
      HopsWeightUpdate(s.hops[h := a'], 0, h + 1, b');
    } else {
      LastStepFalls(j, lim, n, h, s.hops[h], act);
      HopsWeightUpdate(s.hops, 0, h, ApplyHop(j, h, s.hops[h], None, act));
    }
  }

  lemma LastStepFalls(j: Job, lim: Limits, n: nat, h: nat, a: Hop, act: Action)
    requires h + 1 == |j.hops| == n
    requires ActorOf(act) == Some(h) && EnabledAny(lim, a, act)
    ensures HopWeight(n, h, ApplyHop(j, h, a, None, act)) < HopWeight(n, h, a)
  {
    hide Times, RxEffect, ForwardEffect, RelayEffect, TakeJob;
    if act.Teardown? {
    } else {
      hide HopWeight, AnswerEffect;
      OwnStepFalls(j, lim, n, h, a, act);
    }
  }

  /** Every step of any thread, and every fault, lowers the measure. */
  lemma StepFalls(j: Job, lim: Limits, s: State, act: Action)
    requires ValidJob(j) && |s.hops| == |j.hops| && Enabled(j, lim, s, act)
    ensures Measure(j, Apply(j, s, act)) < Measure(j, s)
  {
    hide Measure, EnabledCoordinator, EnabledMiddle, EnabledAny, ApplyHop, ApplyNext, ProducerStep, SenderStep,
         ReaderStep;
    match ActorOf(act)
    case Some(h) => HopActionFalls(j, lim, s, h, act);
    case None =>
      if ProducerAction(act) {
        ProducerStepFalls(j, lim, s, act);
      } else if act.RRead? || act.REof? {
        ReaderStepFalls(j, lim, s, act);
      } else {
        SenderStepFalls(j, lim, s, act);
      }
  }

  lemma {:induction false} HopsWeightNonNegative(j: Job, cl: Cluster, s: State, h: nat)
    requires ValidJob(j) && |cl.hops| == |j.hops| == |s.hops| && h <= |s.hops|
    requires forall k :: 0 <= k < |s.hops| ==> HopInv(j, cl, s, k)
    ensures HopsWeight(s.hops, h) >= 0
    decreases |s.hops| - h
  {
    hide CleanLen, ContentInv, PairInv, LastInv, Times;
    if h < |s.hops| {
      HopsWeightNonNegative(j, cl, s, h + 1);
      assert HopInv(j, cl, s, h);
      var a := s.hops[h];
      TimesSteps(DownWeight(|s.hops|, h), |a.link.down.log| - a.link.down.taken);
      TimesSteps(UpWeight(h), |a.link.up.log| - a.link.up.taken);
      TimesSteps(DownWeight(|s.hops|, h) - 2, |a.jobs|);
    }
  }

  lemma MeasureNonNegative(j: Job, lim: Limits, cl: Cluster, s: State)
    requires ValidJob(j) && |cl.hops| == |j.hops| == |s.hops|
    requires Inv(j, lim, cl, s)
    ensures Measure(j, s) >= 0
  {
    hide HopsWeight, Times, HopInv, Queued, ReaderInv;
    HopsWeightNonNegative(j, cl, s, 0);
    TimesSteps(DownWeight(|s.hops|, 0) + 8, j.count - s.prod.submitted);
    TimesSteps(DownWeight(|s.hops|, 0) + 4, |s.send.queue| - Wrote(s.send));
  }

  /** No run, with any faults in it, is longer than the measure of its first state. */
  lemma {:induction false} RunsAreBounded(j: Job, lim: Limits, cl: Cluster, s: State, run: seq<Action>)
    requires ValidJob(j) && |cl.hops| == |j.hops| == |s.hops|
    requires Inv(j, lim, cl, s) && ValidRun(j, lim, s, run)
    ensures |run| + Measure(j, After(j, s, run)) <= Measure(j, s)
    ensures |run| <= Measure(j, s)
    decreases |run|
  {
    hide Inv, Enabled, Apply, Measure;
    EveryRunKeepsInv(j, lim, cl, s, run);
    MeasureNonNegative(j, lim, cl, After(j, s, run));
    if run != [] {
      StepFalls(j, lim, s, run[0]);
      EveryRunKeepsInv(j, lim, cl, s, run[..1]);
      OneStep(j, lim, s, run[0]);
      RunsAreBounded(j, lim, cl, Apply(j, s, run[0]), run[1..]);
    }
  }

  lemma OneStep(j: Job, lim: Limits, s: State, act: Action)
    requires ValidJob(j) && |s.hops| == |j.hops| && Enabled(j, lim, s, act)
    ensures ValidRun(j, lim, s, [act]) && After(j, s, [act]) == Apply(j, s, act)
  {
    hide Enabled, Apply;
    assert [act][1..] == [];
  }

  // ---------------------------------------------------------------- what the threads keep while sockets are up

  /** While a hop's socket is up none of its threads has gone and nothing of it is closed. */
  predicate Alive(a: Hop) {
    a.link.open ==> !a.jobsClosed && !a.rx.RxDone? && !a.ev.EvDone? && !a.fwd.relay.RlDone? && !a.fwd.closed
  }

  function Relaying(a: Hop): nat {
    if a.fwd.relay.RlHold? then 1 else 0
  }

  function Sending(a: Hop): nat {
    if a.ev.EvSending? then 1 else 0
  }

  /** While the sockets on both sides of a hop are up, every job it took was answered, is being worked
      on, or is with the next hop, and the pending list counts the requests with the next hop. */
  predicate Balance(a: Hop, b: Hop) {
    a.link.open && b.link.open ==>
      && |a.link.up.log| + Relaying(a) + Answering(a) + Forwarding(a) + |b.link.down.log| == a.popped + b.link.up.taken
      && |a.fwd.pending| + b.link.up.taken == |b.link.down.log| + Sending(a)
  }

  predicate LastBalance(a: Hop) {
    a.link.open ==> |a.link.up.log| + Answering(a) == a.popped
  }

  predicate ThreadsAlive(s: State)
    requires |s.hops| >= 1
  {
    && (s.send.producerDone <==> s.prod.pc.PJoin? || s.prod.pc.PDrain? || s.prod.pc.PDone?)
    && (s.send.pc.SDone? ==> s.send.stop || (s.send.queue == [] && s.send.producerDone))
    && (s.prod.pc.PDone? ==> s.read.done)
    && (s.hops[0].link.open ==> !s.send.stop && !s.send.failed && !s.prod.failed && !s.read.failed)
  }

  predicate Live(s: State) {
    && |s.hops| >= 1
    && ThreadsAlive(s)
    && (forall h :: 0 <= h < |s.hops| ==> Alive(s.hops[h]))
    && (forall h :: 0 <= h && h + 1 < |s.hops| ==> Balance(s.hops[h], s.hops[h + 1]))
    && LastBalance(s.hops[|s.hops| - 1])
  }

  // ---------------------------------------------------------------- and that they keep it

  lemma OwnStepAlive(j: Job, lim: Limits, h: nat, a: Hop, act: Action)
    requires h < |j.hops| && EnabledAny(lim, a, act) && Alive(a)
    ensures Alive(ApplyHop(j, h, a, None, act))
    ensures h + 1 == |j.hops| && !a.ev.EvForward? && !a.ev.EvSending? && LastBalance(a)
      ==> LastBalance(ApplyHop(j, h, a, None, act))
  {
    hide Evaluates, RunWork, Prepare, Forwarded, LastPayload;
  }

  lemma OwnStepBalance(j: Job, lim: Limits, h: nat, a: Hop, b: Hop, act: Action)
    requires h + 1 < |j.hops| && EnabledAny(lim, a, act) && Alive(a) && Balance(a, b)
    ensures Balance(ApplyHop(j, h, a, None, act), b)
  {
    hide Evaluates, RunWork, Prepare, Forwarded, LastPayload;
  }

  lemma PairStepLive(lim: Limits, a: Hop, b: Hop, act: Action)
    requires EnabledMiddle(lim, a, b, act) && Alive(a) && Balance(a, b)
    ensures ForwardStep(a, act) ==> Alive(ForwardEffect(a, act)) && Balance(ForwardEffect(a, act), ApplyNext(a, b, act))
    ensures RelayStep(a, b, act)
      ==> Alive(RelayEffect(a, b, act)) && Balance(RelayEffect(a, b, act), ApplyNext(a, b, act))
  {
  }

  /** No step opens a socket again. */
  lemma OwnSocketOnlyCloses(j: Job, h: nat, a: Hop, b: Option<Hop>, act: Action)
    requires h < |j.hops|
    ensures ApplyHop(j, h, a, b, act).link.open ==> a.link.open
  {
    hide Evaluates, RunWork, Prepare, Forwarded, LastPayload;
  }

  lemma NextSocketOnlyCloses(a: Hop, b: Hop, act: Action)
    ensures ApplyNext(a, b, act).link.open ==> b.link.open
  {
  }

  /** The hop that stepped and, if it has one, the next. */
  lemma StepLive(j: Job, lim: Limits, h: nat, a: Hop, b: Hop, act: Action)
    requires h + 1 < |j.hops| && ActorOf(act) == Some(h) && EnabledMiddle(lim, a, b, act)
    requires Alive(a) && Balance(a, b)
    ensures Alive(ApplyHop(j, h, a, Some(b), act)) && Balance(ApplyHop(j, h, a, Some(b), act), ApplyNext(a, b, act))
  {
    hide RxEffect, ForwardEffect, RelayEffect, AnswerEffect, TakeJob, Alive, Balance, EnabledAny;
    if ForwardStep(a, act) || RelayStep(a, b, act) {
      PairStepLive(lim, a, b, act);
    } else if act.Teardown? {
      TornDown(a, b, act);
    } else {
      assert EnabledAny(lim, a, act);
      OwnStepAlive(j, lim, h, a, act);
      OwnStepBalance(j, lim, h, a, b, act);
    }
  }

  lemma TornDown(a: Hop, b: Hop, act: Action)
    requires act.Teardown?
    ensures Alive(AnswerEffect(a, act)) && Balance(AnswerEffect(a, act), ApplyNext(a, b, act))
  {
  }

  /** What a hop step may do, as far as liveness is concerned. */
  ghost predicate LiveStep(j: Job, cl: Cluster, s: State, s': State, h: nat)
    requires ValidJob(j) && |cl.hops| == |j.hops| == |s.hops| && h < |s.hops|
  {
    && HopStep(j, cl, s, s', h)
    && (s'.hops[h].link.open ==> s.hops[h].link.open)
    && Alive(s'.hops[h])
    && (h + 1 < |s.hops|
      ==> Balance(s'.hops[h], s'.hops[h + 1]) && (s'.hops[h + 1].link.open ==> s.hops[h + 1].link.open))
    && (h + 1 == |s.hops| ==> LastBalance(s'.hops[h]))
  }

  lemma HopActionLives(j: Job, lim: Limits, cl: Cluster, s: State, h: nat, act: Action)
    requires ValidJob(j) && |cl.hops| == |j.hops| == |s.hops| && h < |s.hops|
    requires Inv(j, lim, cl, s) && ActorOf(act) == Some(h) && Enabled(j, lim, s, act) && Live(s)
    ensures LiveStep(j, cl, s, Apply(j, s, act), h)
  {
    hide CountsInv, ContentInv, PairInv, ProducerInv, SenderInv, ReaderInv, CleanLen, EnabledMiddle, EnabledAny,
         ApplyHop, ApplyNext, Sound, ActorOf, FrameAt, RelayInv, ResultAt, HopAt, HopStep, Alive, Balance, LastBalance;
    HopActionShape(j, lim, cl, s, h, act);
    assert HopInv(j, cl, s, h);
    if h + 1 < |s.hops| {
      StepLive(j, lim, h, s.hops[h], s.hops[h + 1], act);
      NextSocketOnlyCloses(s.hops[h], s.hops[h + 1], act);
      OwnSocketOnlyCloses(j, h, s.hops[h], Some(s.hops[h + 1]), act);
    } else {
      OwnStepAlive(j, lim, h, s.hops[h], act);
      OwnSocketOnlyCloses(j, h, s.hops[h], None, act);
    }
  }

  lemma LiveStepKeepsLive(j: Job, cl: Cluster, s: State, s': State, h: nat)
    requires ValidJob(j) && |cl.hops| == |j.hops| == |s.hops| && h < |s.hops|
    requires LiveStep(j, cl, s, s', h) && Live(s)
    ensures Live(s')
  {
    hide CountsInv, ContentInv, PairInv, LastInv, Sound, FrameAt;
  }

  lemma HopActionKeepsLive(j: Job, lim: Limits, cl: Cluster, s: State, h: nat, act: Action)
    requires ValidJob(j) && |cl.hops| == |j.hops| == |s.hops| && h < |s.hops|
    requires Inv(j, lim, cl, s) && ActorOf(act) == Some(h) && Enabled(j, lim, s, act) && Live(s)
    ensures Live(Apply(j, s, act))
  {
    hide Live, LiveStep, Inv, Enabled, Apply;
    HopActionLives(j, lim, cl, s, h, act);
    LiveStepKeepsLive(j, cl, s, Apply(j, s, act), h);
  }

  /** The coordinator's part of a step: only the first socket, which it may close. */
  lemma FirstTouchedKeepsLive(j: Job, cl: Cluster, s: State, s': State)
    requires ValidJob(j) && |cl.hops| == |j.hops| == |s.hops|
    requires Live(s) && FirstTouched(j, cl, s, s') && ThreadsAlive(s')
    requires s'.hops[0].link.open ==> s.hops[0].link.open
    ensures Live(s')
  {
    hide ThreadsAlive, FrameAt, CleanLen;
  }

  lemma ProducerKeepsThreads(j: Job, lim: Limits, s: State, act: Action)
    requires ValidJob(j) && |s.hops| == |j.hops|
    requires ThreadsAlive(s) && EnabledCoordinator(j, lim, s, act)
    ensures ThreadsAlive(ProducerStep(j, s, act))
    ensures ProducerStep(j, s, act).hops[0].link.open ==> s.hops[0].link.open
  {
    hide LocalHidden, LocalSucceeds, LocalAfter, FrameOf;
  }

  lemma OthersKeepThreads(j: Job, lim: Limits, s: State, act: Action)
    requires |s.hops| >= 1
    requires ThreadsAlive(s) && EnabledCoordinator(j, lim, s, act)
    ensures ThreadsAlive(SenderStep(s, act)) && ThreadsAlive(ReaderStep(j, s, act))
    ensures SenderStep(s, act).hops[0].link.open ==> s.hops[0].link.open
    ensures ReaderStep(j, s, act).hops[0].link.open ==> s.hops[0].link.open
  {
    hide Acceptable;
  }

  lemma CoordinatorActionKeepsLive(j: Job, lim: Limits, cl: Cluster, s: State, act: Action)
    requires ValidJob(j) && |cl.hops| == |j.hops| == |s.hops|
    requires Inv(j, lim, cl, s) && ActorOf(act) == None && Enabled(j, lim, s, act) && Live(s)
    ensures Live(Apply(j, s, act))
  {
    hide CountsInv, ProducerInv, SenderInv, ReaderInv, HopInv, FirstTouched, Live, ThreadsAlive, ProducerStep,
         SenderStep, ReaderStep, EnabledCoordinator;
    FirstHopCounts(j, cl, s);
    LiveThreads(s);
    if act.SStep? || act.SWrite? || act.SWriteFails? || act.SPop? {
      SenderKeeps(j, lim, cl, s, act);
      OthersKeepThreads(j, lim, s, act);
    } else if act.RRead? || act.REof? {
      ReaderKeeps(j, lim, cl, s, act);
      OthersKeepThreads(j, lim, s, act);
    } else {
      ProducerKeeps(j, lim, cl, s, act);
      ProducerKeepsThreads(j, lim, s, act);
    }
    FirstTouchedKeepsLive(j, cl, s, Apply(j, s, act));
  }

  lemma LiveThreads(s: State)
    requires Live(s)
    ensures |s.hops| >= 1 && ThreadsAlive(s)
  {
  }

  lemma InitIsLive(cl: Cluster)
    requires |cl.hops| >= 1
    ensures Live(Init(cl))
  {
  }

  lemma {:induction false} EveryRunStaysLive(j: Job, lim: Limits, cl: Cluster, s: State, run: seq<Action>)
    requires ValidJob(j) && |cl.hops| == |j.hops| == |s.hops|
    requires Inv(j, lim, cl, s) && Live(s) && ValidRun(j, lim, s, run)
    ensures Inv(j, lim, cl, After(j, s, run)) && Live(After(j, s, run))
    decreases |run|
  {
    hide Inv, Enabled, Apply, Live;
    if run != [] {
      match ActorOf(run[0]) {
        case None =>
          CoordinatorActionKeeps(j, lim, cl, s, run[0]);
          CoordinatorActionKeepsLive(j, lim, cl, s, run[0]);
        case Some(h) =>
          ActorInRange(j, lim, s, run[0]);
          HopActionKeeps(j, lim, cl, s, h, run[0]);
          HopActionKeepsLive(j, lim, cl, s, h, run[0]);
      }
      EveryRunStaysLive(j, lim, cl, Apply(j, s, run[0]), run[1..]);
    }
  }

  // ---------------------------------------------------------------- a state where nobody can step

  /** No thread can step unless the environment forces a fault. */
  ghost predicate Stuck(j: Job, lim: Limits, s: State)
    requires |s.hops| == |j.hops| >= 1
  {
    forall act :: Enabled(j, lim, s, act) ==> IsFault(s, act)
  }

  /** What the coordinator threads must be waiting for. */
  predicate CoordinatorWaits(j: Job, lim: Limits, s: State)
    requires |s.hops| >= 1
  {
    var p, d, r, link := s.prod, s.send, s.read, s.hops[0].link;
    && (p.pc.PTop? ==> p.submitted != j.count && !r.done && p.submitted >= r.accepted + lim.window)
    && (p.pc.PAcquire? ==> !d.stop && !d.failed && |d.queue| >= lim.slots)
    && !p.pc.PEval? && !p.pc.PEnqueue?
    && (p.pc.PJoin? ==> !d.pc.SDone?)
    && (p.pc.PDrain? ==> !r.done)
    && (d.pc.SWait? ==> !d.stop && d.queue == [] && !d.producerDone)
    && (d.pc.SBusy? ==> link.open && (d.queue == [] || !link.down.HasRoom(lim.capacity)))
    && (d.pc.SWrote? ==> d.queue == [])
    && (!r.done ==> link.open && !link.up.HasNext())
  }

  /** What the threads of one hop must be waiting for, apart from its next hop. */
  predicate HopWaits(lim: Limits, a: Hop) {
    && (a.rx.RxRun? ==> a.link.open && !a.link.down.HasNext())
    && (a.rx.RxHold? ==> !a.jobsClosed && |a.jobs| >= lim.jobDepth)
    && (a.ev.EvIdle? ==> a.jobs == [] && !a.jobsClosed)
    && (a.ev.EvReply? ==> a.link.open && !a.link.up.HasRoom(lim.capacity))
  }

  predicate PairWaits(lim: Limits, a: Hop, b: Hop) {
    ForwardWaits(lim, a, b) && RelayWaits(lim, a, b)
  }

  predicate ForwardWaits(lim: Limits, a: Hop, b: Hop) {
    && (a.ev.EvForward? ==> !a.fwd.closed && |a.fwd.pending| >= lim.pendingDepth)
    && (a.ev.EvSending? ==> b.link.open && !b.link.down.HasRoom(lim.capacity))
  }

  predicate RelayWaits(lim: Limits, a: Hop, b: Hop) {
    && (a.fwd.relay.RlRun? ==> b.link.open && !b.link.up.HasNext())
    && (a.fwd.relay.RlHold? ==> a.link.open && !a.link.up.HasRoom(lim.capacity))
  }

  lemma Refuses(j: Job, lim: Limits, s: State, act: Action)
    requires |s.hops| == |j.hops| >= 1 && Stuck(j, lim, s)
    ensures Enabled(j, lim, s, act) ==> IsFault(s, act)
  {
  }

  lemma StuckCoordinator(j: Job, lim: Limits, s: State)
    requires |s.hops| == |j.hops| >= 1 && Stuck(j, lim, s)
    ensures CoordinatorWaits(j, lim, s)
  {
    hide Stuck;
    Refuses(j, lim, s, PWindow);
    Refuses(j, lim, s, PTake);
    Refuses(j, lim, s, PLocal(ResetWorks, EvalWorks));
    Refuses(j, lim, s, PPut);
    Refuses(j, lim, s, PJoinSender);
    Refuses(j, lim, s, PJoinReader);
    Refuses(j, lim, s, SStep);
    Refuses(j, lim, s, SWrite);
    Refuses(j, lim, s, SWriteFails);
    Refuses(j, lim, s, SPop);
    Refuses(j, lim, s, RRead);
    Refuses(j, lim, s, REof);
  }

  lemma HopRefuses(j: Job, lim: Limits, s: State, h: nat, act: Action)
    requires |s.hops| == |j.hops| && h < |s.hops| && Stuck(j, lim, s)
    requires ActorOf(act) == Some(h) && OwnAction(act)
    ensures EnabledAny(lim, s.hops[h], act) ==> IsFault(s, act)
  {
    hide IsFault;
    Refuses(j, lim, s, act);
  }

  lemma PairRefuses(j: Job, lim: Limits, s: State, h: nat, act: Action)
    requires |s.hops| == |j.hops| && h + 1 < |s.hops| && Stuck(j, lim, s) && ActorOf(act) == Some(h)
    ensures EnabledMiddle(lim, s.hops[h], s.hops[h + 1], act) ==> IsFault(s, act)
  {
    hide IsFault, EnabledMiddle, EnabledAny;
    Refuses(j, lim, s, act);
  }

  predicate OwnAction(act: Action) {
    act.RxRead? || act.RxPut? || act.RxEof? || act.EvTake? || act.EvExit? || act.EvAnswer? || act.EvAnswerFails?
  }

  lemma StuckHop(j: Job, lim: Limits, s: State, h: nat)
    requires |s.hops| == |j.hops| && h < |s.hops| && Stuck(j, lim, s)
    ensures HopWaits(lim, s.hops[h])
  {
    hide Stuck, Enabled;
    HopRefuses(j, lim, s, h, RxRead(h));
    HopRefuses(j, lim, s, h, RxPut(h));
    HopRefuses(j, lim, s, h, RxEof(h, true));
    HopRefuses(j, lim, s, h, EvTake(h, false, ResetWorks, EvalWorks));
    HopRefuses(j, lim, s, h, EvExit(h));
    HopRefuses(j, lim, s, h, EvAnswer(h));
    HopRefuses(j, lim, s, h, EvAnswerFails(h));
  }

  lemma StuckForward(j: Job, lim: Limits, s: State, h: nat)
    requires |s.hops| == |j.hops| && h + 1 < |s.hops| && Stuck(j, lim, s)
    ensures ForwardWaits(lim, s.hops[h], s.hops[h + 1])
  {
    hide Stuck, Enabled, EnabledAny;
    PairRefuses(j, lim, s, h, EvTrack(h));
    PairRefuses(j, lim, s, h, EvWrite(h));
    PairRefuses(j, lim, s, h, EvWriteFails(h));
  }

  lemma StuckRelay(j: Job, lim: Limits, s: State, h: nat)
    requires |s.hops| == |j.hops| && h + 1 < |s.hops| && Stuck(j, lim, s)
    ensures RelayWaits(lim, s.hops[h], s.hops[h + 1])
  {
    hide Stuck, Enabled, EnabledAny;
    PairRefuses(j, lim, s, h, RlRead(h));
    PairRefuses(j, lim, s, h, RlEof(h));
    PairRefuses(j, lim, s, h, RlWrite(h));
    PairRefuses(j, lim, s, h, RlWriteFails(h));
  }

  lemma StuckPair(j: Job, lim: Limits, s: State, h: nat)
    requires |s.hops| == |j.hops| && h + 1 < |s.hops| && Stuck(j, lim, s)
    ensures PairWaits(lim, s.hops[h], s.hops[h + 1])
  {
    hide Stuck, ForwardWaits, RelayWaits;
    StuckForward(j, lim, s, h);
    StuckRelay(j, lim, s, h);
  }

  /** With the first socket down, only the exit of all three threads leaves nothing to do. */
  lemma StuckAfterClose(j: Job, lim: Limits, s: State)
    requires |s.hops| >= 1 && ValidLimits(lim)
    requires CoordinatorWaits(j, lim, s) && ThreadsAlive(s) && !s.hops[0].link.open
    requires s.send.pc.SBusy? || s.send.pc.SWrote? ==> s.send.queue != []
    ensures Finished(s)
  {
  }

  /** A hop whose socket is up and whose answers have all been read is not blocked on them. */
  lemma {:induction false} AnswersDrained(j: Job, lim: Limits, cl: Cluster, s: State, h: nat)
    requires ValidJob(j) && ValidLimits(lim) && |cl.hops| == |j.hops| == |s.hops| && h < |s.hops|
    requires Inv(j, lim, cl, s) && Live(s) && Stuck(j, lim, s) && !s.read.done
    ensures s.hops[h].link.open && !s.hops[h].link.up.HasNext()
    ensures h > 0 ==> s.hops[h - 1].fwd.relay.RlRun?
  {
    hide Inv, Stuck, Balance, LastBalance;
    if h == 0 {
      StuckCoordinator(j, lim, s);
    } else {
      AnswersDrained(j, lim, cl, s, h - 1);
      StuckPair(j, lim, s, h - 1);
      assert Alive(s.hops[h - 1]);
      RoomWhenDrained(lim, s.hops[h - 1]);
    }
  }

  lemma RoomWhenDrained(lim: Limits, a: Hop)
    requires ValidLimits(lim) && !a.link.up.HasNext()
    ensures a.link.up.HasRoom(lim.capacity)
  {
  }

  /** A hop with nothing left in it: all it was sent was taken, evaluated and answered. */
  predicate Idle(a: Hop) {
    && a.link.open && a.link.down.taken == |a.link.down.log| == a.popped
    && |a.link.up.log| == a.link.up.taken == a.popped
  }

  lemma IdleLast(lim: Limits, a: Hop)
    requires ValidLimits(lim) && HopWaits(lim, a) && Alive(a) && CountsInv(a) && LastBalance(a)
    requires a.link.open && !a.link.up.HasNext() && !a.ev.EvForward? && !a.ev.EvSending?
    ensures Idle(a)
  {
    hide CleanLen;
  }

  lemma IdleMiddle(lim: Limits, a: Hop, b: Hop)
    requires ValidLimits(lim) && HopWaits(lim, a) && PairWaits(lim, a, b) && Alive(a) && CountsInv(a) && Balance(a, b)
    requires a.link.open && !a.link.up.HasNext() && a.fwd.relay.RlRun? && Idle(b)
    ensures Idle(a)
  {
    hide CleanLen;
  }

  lemma {:induction false} AllIdle(j: Job, lim: Limits, cl: Cluster, s: State, h: nat)
    requires ValidJob(j) && ValidLimits(lim) && |cl.hops| == |j.hops| == |s.hops| && h < |s.hops|
    requires Inv(j, lim, cl, s) && Live(s) && Stuck(j, lim, s) && !s.read.done
    ensures Idle(s.hops[h])
    decreases |s.hops| - h
  {
    hide Stuck, CountsInv, ContentInv, PairInv, Balance, LastBalance, HopWaits, PairWaits, Alive, Idle, ThreadsAlive,
         ProducerInv, SenderInv, ReaderInv;
    AnswersDrained(j, lim, cl, s, h);
    StuckHop(j, lim, s, h);
    assert HopInv(j, cl, s, h) && Alive(s.hops[h]);
    if h + 1 < |s.hops| {
      AnswersDrained(j, lim, cl, s, h + 1);
      AllIdle(j, lim, cl, s, h + 1);
      StuckPair(j, lim, s, h);
      IdleMiddle(lim, s.hops[h], s.hops[h + 1]);
    } else {
      IdleLast(lim, s.hops[h]);
    }
  }

  /** With the first socket up and the reader waiting, the submitted chunks cannot all be drained. */
  lemma SomeoneWasSubmitting(j: Job, lim: Limits, cl: Cluster, s: State)
    requires ValidJob(j) && ValidLimits(lim) && |cl.hops| == |j.hops| == |s.hops|
    requires ProducerInv(j, lim, cl, s) && SenderInv(j, cl, s) && ReaderInv(j, s) && ThreadsAlive(s)
    requires CoordinatorWaits(j, lim, s) && Idle(s.hops[0])
    ensures s.read.done
  {
    hide CleanLen, Queued, Acceptable, LocalAt, LocalAccepts, HiddenInto;
  }

  /** With the first socket up and every answer accepted, the threads have nothing left but to exit. */
  lemma NothingLeftToSubmit(j: Job, lim: Limits, cl: Cluster, s: State)
    requires ValidJob(j) && ValidLimits(lim) && |cl.hops| == |j.hops| == |s.hops|
    requires ProducerInv(j, lim, cl, s) && SenderInv(j, cl, s) && ReaderInv(j, s) && ThreadsAlive(s)
    requires s.hops[0].okRun <= |s.hops[0].link.down.log| && CleanLen(s.hops[0].link.up.log) <= s.hops[0].okRun
    requires CoordinatorWaits(j, lim, s) && s.hops[0].link.open && s.read.done
    ensures Finished(s)
  {
    hide CleanLen, Queued, Acceptable, LocalAt, LocalAccepts, HiddenInto;
  }

  /** Only a finished state leaves every thread without a step. */
  lemma StuckOnlyWhenFinished(j: Job, lim: Limits, cl: Cluster, s: State)
    requires ValidJob(j) && ValidLimits(lim) && |cl.hops| == |j.hops| == |s.hops|
    requires Inv(j, lim, cl, s) && Live(s) && Stuck(j, lim, s)
    ensures Finished(s)
  {
    hide Inv, Stuck, Live, ThreadsAlive, CoordinatorWaits, Idle, ProducerInv, ReaderInv, CleanLen, Queued;
    StuckCoordinator(j, lim, s);
    LiveThreads(s);
    ThreadsOf(j, lim, cl, s);
    if !s.hops[0].link.open {
      StuckAfterClose(j, lim, s);
    } else {
      if !s.read.done {
        AllIdle(j, lim, cl, s, 0);
        SomeoneWasSubmitting(j, lim, cl, s);
      }
      CleanResultsWereEvaluated(j, lim, cl, s, 0);
      SentWasEvaluated(j, lim, cl, s, 0);
      NothingLeftToSubmit(j, lim, cl, s);
    }
  }

  // ---------------------------------------------------------------- every run can be finished, and must end

  /** No engine call fails of itself and no worker refuses a frame for a reason outside the protocol. */
  predicate Works(act: Action) {
    match act
    case PLocal(ro, eo) => ro.ResetWorks? && eo.EvalWorks?
    case EvTake(_, refuse, ro, eo) => !refuse && ro.ResetWorks? && eo.EvalWorks?
    case _ => true
  }

  /** A run in which nothing goes wrong that the protocol does not cause itself. */
  ghost predicate Undisturbed(j: Job, s: State, run: seq<Action>)
    requires ValidJob(j) && |s.hops| == |j.hops|
    decreases |run|
  {
    run == [] || (!IsFault(s, run[0]) && Works(run[0]) && Undisturbed(j, Apply(j, s, run[0]), run[1..]))
  }

  /** The same step with the engine calls and checks in it going well. */
  function Benign(act: Action): Action {
    match act
    case PLocal(_, _) => PLocal(ResetWorks, EvalWorks)
    case EvTake(h, _, _, _) => EvTake(h, false, ResetWorks, EvalWorks)
    case _ => act
  }

  /** Whether a step is possible does not depend on how its engine calls and checks turn out. */
  lemma BenignEnabled(j: Job, lim: Limits, s: State, act: Action)
    requires |s.hops| == |j.hops| >= 1 && Enabled(j, lim, s, act) && !IsFault(s, act)
    ensures Enabled(j, lim, s, Benign(act)) && !IsFault(s, Benign(act)) && Works(Benign(act))
  {
  }

  lemma {:induction false} FinishFrom(j: Job, lim: Limits, cl: Cluster, s: State) returns (rest: seq<Action>)
    requires ValidJob(j) && ValidLimits(lim) && |cl.hops| == |j.hops| == |s.hops|
    requires Inv(j, lim, cl, s) && Live(s)
    ensures ValidRun(j, lim, s, rest) && Undisturbed(j, s, rest) && Finished(After(j, s, rest))
    decreases Measure(j, s)
  {
    hide Inv, Live, Enabled, IsFault, Apply, Measure, Finished, Works;
    MeasureNonNegative(j, lim, cl, s);
    if Stuck(j, lim, s) {
      StuckOnlyWhenFinished(j, lim, cl, s);
      rest := [];
    } else {
      var some :| Enabled(j, lim, s, some) && !IsFault(s, some);
      var act := Benign(some);
      BenignEnabled(j, lim, s, some);
      StepFalls(j, lim, s, act);
      OneStep(j, lim, s, act);
      EveryRunStaysLive(j, lim, cl, s, [act]);
      var tail := FinishFrom(j, lim, cl, Apply(j, s, act));
      rest := [act] + tail;
      assert rest[1..] == tail;
    }
  }

  /** The pipeline never gets stuck.  After any run, with faults at any step, as long as some coordinator
      thread has not exited some thread can step without a further fault; and runs are bounded, so
      producer, sender and reader all exit. */
  lemma PipelineNeverSticks(j: Job, lim: Limits, cl: Cluster, run: seq<Action>)
    requires ValidJob(j) && ValidLimits(lim) && |cl.hops| == |j.hops| && j.count > 0
    requires ValidRun(j, lim, Init(cl), run)
    ensures |run| <= Measure(j, Init(cl))
    ensures Finished(After(j, Init(cl), run)) ||
      exists act :: Enabled(j, lim, After(j, Init(cl), run), act) && !IsFault(After(j, Init(cl), run), act)
  {
    hide Inv, Live, Enabled, IsFault, Measure, Init, After, ValidRun, Finished;
    InitLen(cl);
    var s := After(j, Init(cl), run);
    InitKeeps(j, lim, cl);
    InitIsLive(cl);
    EveryRunStaysLive(j, lim, cl, Init(cl), run);
    RunsAreBounded(j, lim, cl, Init(cl), run);
    if Stuck(j, lim, s) {
      StuckOnlyWhenFinished(j, lim, cl, s);
    }
  }

  lemma InitLen(cl: Cluster)
    ensures |Init(cl).hops| == |cl.hops|
  {
  }

  /** Every run can be completed, with no further fault and nothing else going wrong, to one in which all three
      threads have exited. */
  lemma EveryRunCanFinish(j: Job, lim: Limits, cl: Cluster, run: seq<Action>) returns (rest: seq<Action>)
    requires ValidJob(j) && ValidLimits(lim) && |cl.hops| == |j.hops| && j.count > 0
    requires ValidRun(j, lim, Init(cl), run)
    ensures var s := After(j, Init(cl), run);
      ValidRun(j, lim, s, rest) && Undisturbed(j, s, rest) && Finished(After(j, s, rest))
  {
    hide Inv, Live, Init, After, ValidRun, Finished, Undisturbed;
    InitLen(cl);
    InitKeeps(j, lim, cl);
    InitIsLive(cl);
    EveryRunStaysLive(j, lim, cl, Init(cl), run);
    rest := FinishFrom(j, lim, cl, After(j, Init(cl), run));
  }
}
