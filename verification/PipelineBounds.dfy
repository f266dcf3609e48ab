/** What the limits promise on every run: no queue, list or socket ever holds more than its limit, and the
    producer returns last. */
module PipelineBounds {
  import opened Wire
  import opened WorkerSessions
  import opened Prefill
  import opened Pipeline

  predicate HopBounded(lim: Limits, a: Hop) {
    && a.link.down.taken <= |a.link.down.log| <= a.link.down.taken + lim.capacity
    && a.link.up.taken <= |a.link.up.log| <= a.link.up.taken + lim.capacity
    && |a.jobs| <= lim.jobDepth
    && |a.fwd.pending| <= lim.pendingDepth
  }

  /** The producer holds a free slot from the moment it was given one until it queues the frame, and has waited
      for the other two threads before it returns. */
  predicate ThreadsBounded(lim: Limits, s: State) {
    && |s.send.queue| <= lim.slots
    && (s.prod.pc.PEval? || s.prod.pc.PEnqueue? ==> |s.send.queue| < lim.slots)
    && (s.prod.pc.PDrain? || s.prod.pc.PDone? ==> s.send.pc.SDone?)
    && (s.prod.pc.PDone? ==> s.read.done)
  }

  predicate Bounded(lim: Limits, s: State) {
    ThreadsBounded(lim, s) && forall h :: 0 <= h < |s.hops| ==> HopBounded(lim, s.hops[h])
  }

  lemma {:induction false} RemovesNoMore(pending: seq<nat>, request: nat)
    ensures |RemoveRequest(pending, request)| <= |pending|
  {
    if pending != [] && pending[0] != request { RemovesNoMore(pending[1..], request); }
  }

  /** A hop's own step, seen on the hop. */
  lemma OwnStepBounded(j: Job, lim: Limits, h: nat, a: Hop, b: Option<Hop>, act: Action)
    requires h < |j.hops| && HopBounded(lim, a)
    requires if b.Some? then EnabledMiddle(lim, a, b.value, act) else EnabledAny(lim, a, act)
    ensures HopBounded(lim, ApplyHop(j, h, a, b, act))
  {
    hide RunWork, SessionRun, Evaluates, Forwarded, LastPayload, Prepare;
    if act.EvWriteFails? && a.ev.EvSending? { RemovesNoMore(a.fwd.pending, a.ev.w.request); }
  }

  /** And on the next hop, whose socket it may write to, read from or shut down. */
  lemma NextStepBounded(lim: Limits, a: Hop, b: Hop, act: Action)
    requires HopBounded(lim, b) && EnabledMiddle(lim, a, b, act)
    ensures HopBounded(lim, ApplyNext(a, b, act))
  {
  }

  predicate CoordinatorBounded(lim: Limits, s: State, s': State) {
    && |s'.hops| == |s.hops| >= 1 && ThreadsBounded(lim, s') && HopBounded(lim, s'.hops[0])
    && forall h :: 0 < h < |s.hops| ==> s'.hops[h] == s.hops[h]
  }

  lemma ProducerStepBounded(j: Job, lim: Limits, s: State, act: Action)
    requires ValidJob(j) && |s.hops| == |j.hops| && EnabledCoordinator(j, lim, s, act)
    requires ThreadsBounded(lim, s) && HopBounded(lim, s.hops[0])
    ensures CoordinatorBounded(lim, s, ProducerStep(j, s, act))
  {
    hide LocalAfter, LocalHidden, LocalSucceeds, FrameOf;
  }

  lemma SenderStepBounded(j: Job, lim: Limits, s: State, act: Action)
    requires |s.hops| >= 1 && EnabledCoordinator(j, lim, s, act)
    requires ThreadsBounded(lim, s) && HopBounded(lim, s.hops[0])
    ensures CoordinatorBounded(lim, s, SenderStep(s, act))
  {
  }

  lemma ReaderStepBounded(j: Job, lim: Limits, s: State, act: Action)
    requires |s.hops| >= 1 && EnabledCoordinator(j, lim, s, act)
    requires ThreadsBounded(lim, s) && HopBounded(lim, s.hops[0])
    ensures CoordinatorBounded(lim, s, ReaderStep(j, s, act))
  {
    hide Acceptable;
  }

  lemma CoordinatorStepBounded(j: Job, lim: Limits, s: State, act: Action)
    requires ValidJob(j) && |s.hops| == |j.hops| && EnabledCoordinator(j, lim, s, act)
    requires ThreadsBounded(lim, s) && HopBounded(lim, s.hops[0])
    ensures CoordinatorBounded(lim, s, ApplyCoordinator(j, s, act))
  {
    hide CoordinatorBounded, ThreadsBounded, HopBounded, EnabledCoordinator, ProducerStep, SenderStep, ReaderStep;
    ProducerStepBounded(j, lim, s, act);
    SenderStepBounded(j, lim, s, act);
    ReaderStepBounded(j, lim, s, act);
  }

  lemma StepBounded(j: Job, lim: Limits, s: State, act: Action)
    requires ValidJob(j) && |s.hops| == |j.hops| && Enabled(j, lim, s, act) && Bounded(lim, s)
    ensures Bounded(lim, Apply(j, s, act))
  {
    hide HopBounded, ThreadsBounded, ApplyHop, ApplyNext, EnabledAny, EnabledMiddle, ApplyCoordinator,
         EnabledCoordinator;
    match ActorOf(act) {
      case None =>
        CoordinatorStepBounded(j, lim, s, act);
      case Some(h) =>
        var s' := Apply(j, s, act);
        OwnStepBounded(j, lim, h, s.hops[h], if h + 1 < |s.hops| then Some(s.hops[h + 1]) else None, act);
        if h + 1 < |s.hops| { NextStepBounded(lim, s.hops[h], s.hops[h + 1], act); }
        SameThreads(lim, s, s');
        assert forall k :: 0 <= k < |s.hops| && k != h && k != h + 1 ==> s'.hops[k] == s.hops[k];
    }
  }

  lemma SameThreads(lim: Limits, s: State, s': State)
    requires ThreadsBounded(lim, s) && s' == s.(hops := s'.hops)
    ensures ThreadsBounded(lim, s')
  {
  }

  lemma {:induction false} RunBounded(j: Job, lim: Limits, s: State, run: seq<Action>)
    requires ValidJob(j) && |s.hops| == |j.hops| && Bounded(lim, s) && ValidRun(j, lim, s, run)
    ensures Bounded(lim, After(j, s, run))
    decreases |run|
  {
    hide Bounded, Enabled, Apply;
    if run != [] {
      StepBounded(j, lim, s, run[0]);
      RunBounded(j, lim, Apply(j, s, run[0]), run[1..]);
    }
  }

  lemma StartBounded(lim: Limits, cl: Cluster)
    ensures Bounded(lim, Init(cl)) && |Init(cl).hops| == |cl.hops|
  {
  }

  /** After every run, faults included: frames waiting for the sender fit its slots, frames in either direction of
      every socket fit its capacity, queued jobs fit the prefetch depth, and forwarded requests without
      an answer fit the forward window. */
  lemma BuffersNeverOverflow(j: Job, lim: Limits, cl: Cluster, run: seq<Action>)
    requires ValidJob(j) && |cl.hops| == |j.hops| && ValidRun(j, lim, Init(cl), run)
    ensures var s := After(j, Init(cl), run);
      && |s.send.queue| <= lim.slots
      && forall h :: 0 <= h < |s.hops| ==>
           && |s.hops[h].link.down.log| - s.hops[h].link.down.taken <= lim.capacity
           && |s.hops[h].link.up.log| - s.hops[h].link.up.taken <= lim.capacity
           && |s.hops[h].jobs| <= lim.jobDepth
           && |s.hops[h].fwd.pending| <= lim.pendingDepth
  {
    hide Init, After, ValidRun;
    StartBounded(lim, cl);
    RunBounded(j, lim, Init(cl), run);
  }

  /** When the call returns no thread of it is left that could touch its locals. */
  lemma ReturnsLast(j: Job, lim: Limits, cl: Cluster, run: seq<Action>)
    requires ValidJob(j) && |cl.hops| == |j.hops| && ValidRun(j, lim, Init(cl), run)
    ensures After(j, Init(cl), run).prod.pc.PDone? ==> Finished(After(j, Init(cl), run))
  {
    hide Init, After, ValidRun;
    StartBounded(lim, cl);
    RunBounded(j, lim, Init(cl), run);
  }
}
