/** What becomes of the workers' threads when a pipelined prefill has failed: when all of them end, and when one
    of them is left waiting for good. */
module PipelineStranding {
  import opened Wire
  import opened WorkerSessions
  import opened Prefill
  import opened Pipeline
  import opened PipelineSafety
  import opened PipelineTheorems
  import opened PipelineProgress
  import opened PipelineCalls

  // ---------------------------------------------------------------- what threads leave closed behind them

  /** A thread that is gone has closed what it fed. */
  predicate Tidy(a: Hop) {
    && (a.ev.EvDone? || a.rx.RxDone? ==> a.jobsClosed)
    && (a.fwd.relay.RlDone? ==> a.fwd.closed)
  }

  /** While the next socket is up and the forwarder is in use, the pending list counts the requests that the next hop
      was sent and whose answers were not read, whether or not the upstream socket is still up. */
  predicate Pending(a: Hop, b: Hop) {
    b.link.open && !a.fwd.closed ==> |a.fwd.pending| + b.link.up.taken == |b.link.down.log| + Sending(a)
  }

  predicate AllTidy(s: State) {
    && (forall h :: 0 <= h < |s.hops| ==> Tidy(s.hops[h]))
    && (forall h :: 0 <= h && h + 1 < |s.hops| ==> Pending(s.hops[h], s.hops[h + 1]))
  }

  lemma OwnStepTidy(j: Job, lim: Limits, h: nat, a: Hop, b: Option<Hop>, act: Action)
    requires h < |j.hops| && Tidy(a)
    requires if b.Some? then EnabledMiddle(lim, a, b.value, act) else EnabledAny(lim, a, act)
    ensures Tidy(ApplyHop(j, h, a, b, act))
    ensures var a' := ApplyHop(j, h, a, b, act);
      && (a'.link.open ==> a.link.open) && a'.link.up.taken == a.link.up.taken && a'.link.down.log == a.link.down.log
  {
    hide Found, Evaluates, RunWork, Prepare, Forwarded, LastPayload, RemoveRequest;
  }

  lemma PairStepPending(j: Job, lim: Limits, h: nat, a: Hop, b: Hop, act: Action)
    requires h + 1 < |j.hops| && Tidy(a) && Pending(a, b) && EnabledMiddle(lim, a, b, act)
    ensures Pending(ApplyHop(j, h, a, Some(b), act), ApplyNext(a, b, act)) && (Tidy(b) ==> Tidy(ApplyNext(a, b, act)))
    ensures var b' := ApplyNext(a, b, act); b' == b.(link := b'.link)
  {
    hide Found, Evaluates, RunWork, Prepare, Forwarded, LastPayload, RemoveRequest;
  }

  lemma HopStepTidy(j: Job, lim: Limits, s: State, h: nat, act: Action)
    requires ValidJob(j) && |s.hops| == |j.hops| && h < |s.hops|
    requires ActorOf(act) == Some(h) && Enabled(j, lim, s, act) && AllTidy(s)
    ensures AllTidy(Apply(j, s, act))
  {
    hide EnabledMiddle, EnabledAny, ApplyHop, ApplyNext, ActorOf, Tidy;
    var s' := Apply(j, s, act);
    var b := if h + 1 < |s.hops| then Some(s.hops[h + 1]) else None;
    OwnStepTidy(j, lim, h, s.hops[h], b, act);
    if b.Some? { PairStepPending(j, lim, h, s.hops[h], b.value, act); }
    assert s'.hops[h] == ApplyHop(j, h, s.hops[h], b, act);
    forall k | 0 <= k && k + 1 < |s.hops| ensures Pending(s'.hops[k], s'.hops[k + 1]) {
      if k == h {
      } else if k + 1 == h {
        assert s'.hops[k] == s.hops[k];
      } else if k == h + 1 {
        assert s'.hops[k] == s.hops[k].(link := s'.hops[k].link) && s'.hops[k + 1] == s.hops[k + 1];
      } else {
        assert s'.hops[k] == s.hops[k] && s'.hops[k + 1] == s.hops[k + 1];
      }
    }
  }

  lemma CoordinatorStepTidy(j: Job, lim: Limits, cl: Cluster, s: State, act: Action)
    requires ValidJob(j) && |cl.hops| == |j.hops| == |s.hops|
    requires Inv(j, lim, cl, s) && ActorOf(act) == None && Enabled(j, lim, s, act) && AllTidy(s)
    ensures AllTidy(Apply(j, s, act))
  {
    hide Inv, FirstTouched, Tidy, Pending, ThreadsInv, CountsInv, ProducerStep, SenderStep, ReaderStep,
         EnabledCoordinator;
    ThreadsTogether(j, lim, cl, s);
    FirstCounts(j, lim, cl, s);
    ProducerKeeps(j, lim, cl, s, act);
    SenderKeeps(j, lim, cl, s, act);
    ReaderKeeps(j, lim, cl, s, act);
    FirstTouchedTidy(j, cl, s, Apply(j, s, act));
  }

  lemma FirstTouchedTidy(j: Job, cl: Cluster, s: State, s': State)
    requires ValidJob(j) && |cl.hops| == |j.hops| == |s.hops| && FirstTouched(j, cl, s, s') && AllTidy(s)
    ensures AllTidy(s')
  {
    hide FrameAt;
  }

  lemma {:induction false} RunTidy(j: Job, lim: Limits, cl: Cluster, s: State, run: seq<Action>)
    requires ValidJob(j) && |cl.hops| == |j.hops| == |s.hops|
    requires Inv(j, lim, cl, s) && ValidRun(j, lim, s, run) && AllTidy(s)
    ensures AllTidy(After(j, s, run))
    decreases |run|
  {
    hide Inv, Enabled, Apply, AllTidy;
    if run != [] {
      OneStep(j, lim, s, run[0]);
      EveryRunKeepsInv(j, lim, cl, s, [run[0]]);
      match ActorOf(run[0]) {
        case None => CoordinatorStepTidy(j, lim, cl, s, run[0]);
        case Some(h) =>
          ActorInRange(j, lim, s, run[0]);
          HopStepTidy(j, lim, s, h, run[0]);
      }
      RunTidy(j, lim, cl, Apply(j, s, run[0]), run[1..]);
    }
  }

  lemma InitTidy(cl: Cluster)
    ensures AllTidy(Init(cl))
  {
  }

  // ---------------------------------------------------------------- when nobody can step

  /** All threads of a hop have ended, and its upstream socket is closed. */
  predicate Gone(a: Hop, last: bool) {
    && !a.link.open && a.rx.RxDone? && a.ev.EvDone?
    && (!last ==> a.fwd.relay.RlDone? && a.fwd.closed)
  }

  /** The evaluation thread waits for room on a socket that nobody will read or close: the hop's own relay, the only
      reader of the other direction, has exited, and that closed the upstream socket only. */
  predicate Stranded(lim: Limits, a: Hop, b: Hop) {
    a.ev.EvSending? && a.fwd.relay.RlDone? && b.link.open && !b.link.down.HasRoom(lim.capacity)
  }

  /** In a state where nobody can step, a hop whose socket is up and whose answers were read has nothing left to do. */
  lemma {:induction false} StuckIdle(j: Job, lim: Limits, cl: Cluster, s: State, h: nat)
    requires ValidJob(j) && ValidLimits(lim) && |cl.hops| == |j.hops| == |s.hops| && h < |s.hops|
    requires Inv(j, lim, cl, s) && Live(s) && Stuck(j, lim, s)
    requires s.hops[h].link.open && !s.hops[h].link.up.HasNext()
    ensures Idle(s.hops[h])
    decreases |s.hops| - h
  {
    hide Stuck, CountsInv, ContentInv, PairInv, Balance, LastBalance, HopWaits, ThreadsAlive, ProducerInv, SenderInv,
         ReaderInv, Idle;
    StuckHop(j, lim, s, h);
    assert HopInv(j, cl, s, h) && Alive(s.hops[h]);
    if h + 1 < |s.hops| {
      StuckPair(j, lim, s, h);
      RoomWhenDrained(lim, s.hops[h]);
      StuckIdle(j, lim, cl, s, h + 1);
      IdleMiddle(lim, s.hops[h], s.hops[h + 1]);
    } else {
      IdleLast(lim, s.hops[h]);
    }
  }

  lemma TeardownRefused(j: Job, lim: Limits, s: State, h: nat)
    requires |s.hops| == |j.hops| && h < |s.hops| && Stuck(j, lim, s) && s.hops[h].rx.RxDone? && s.hops[h].ev.EvDone?
    ensures h + 1 < |s.hops| ==> !s.hops[h + 1].link.open && s.hops[h].fwd.closed
  {
    hide Stuck;
    if h + 1 < |s.hops| { PairRefuses(j, lim, s, h, Teardown(h)); }
  }

  /** A middle hop whose upstream socket is down, waiting as it must. */
  lemma ClosedMiddle(lim: Limits, a: Hop, b: Hop)
    requires ValidLimits(lim) && HopWaits(lim, a) && PairWaits(lim, a, b) && Tidy(a) && Pending(a, b) && !a.link.open
    requires b.link.open && !b.link.up.HasNext() ==> Idle(b)
    requires a.rx.RxDone? && a.ev.EvDone? ==> !b.link.open && a.fwd.closed
    ensures Stranded(lim, a, b) || (Gone(a, false) && !b.link.open)
  {
  }

  lemma ClosedLast(lim: Limits, a: Hop)
    requires ValidLimits(lim) && HopWaits(lim, a) && Tidy(a) && !a.link.open && !a.ev.EvForward? && !a.ev.EvSending?
    ensures Gone(a, true)
  {
  }

  lemma {:induction false} ClosedUpTo(j: Job, lim: Limits, cl: Cluster, s: State, h: nat)
    requires ValidJob(j) && ValidLimits(lim) && |cl.hops| == |j.hops| == |s.hops| && h < |s.hops|
    requires Inv(j, lim, cl, s) && Live(s) && AllTidy(s) && Stuck(j, lim, s) && !s.hops[0].link.open
    requires forall k :: 0 <= k && k + 1 < |s.hops| ==> !Stranded(lim, s.hops[k], s.hops[k + 1])
    ensures !s.hops[h].link.open && Gone(s.hops[h], h + 1 == |s.hops|)
  {
    hide Stuck, CountsInv, ContentInv, PairInv, Live, HopWaits, PairWaits, Idle, ProducerInv, SenderInv, ReaderInv,
         Tidy, Pending, Gone, Stranded;
    if h > 0 {
      ClosedUpTo(j, lim, cl, s, h - 1);
      GoneMeans(s.hops[h - 1], false);
      TeardownRefused(j, lim, s, h - 1);
    }
    StuckHop(j, lim, s, h);
    assert HopInv(j, cl, s, h);
    if h + 1 < |s.hops| {
      StuckPair(j, lim, s, h);
      if s.hops[h + 1].link.open && !s.hops[h + 1].link.up.HasNext() { StuckIdle(j, lim, cl, s, h + 1); }
      if s.hops[h].rx.RxDone? && s.hops[h].ev.EvDone? { TeardownRefused(j, lim, s, h); }
      ClosedMiddle(lim, s.hops[h], s.hops[h + 1]);
    } else {
      ClosedLast(lim, s.hops[h]);
    }
  }

  lemma GoneMeans(a: Hop, last: bool)
    requires Gone(a, last)
    ensures a.rx.RxDone? && a.ev.EvDone? && !a.link.open
  {
  }

  /** When a prefill has failed and nobody can step any more, every thread of every worker has ended if and only if no
      evaluation thread waits on a socket that is up and full while its own relay has exited. */
  lemma WorkersEndUnlessStranded(j: Job, lim: Limits, cl: Cluster, run: seq<Action>)
    requires ValidJob(j) && ValidLimits(lim) && |cl.hops| == |j.hops| && j.count > 0
    requires ValidRun(j, lim, Init(cl), run) && |Init(cl).hops| == |j.hops|
    requires var s := After(j, Init(cl), run); Stuck(j, lim, s) && !s.hops[0].link.open
    ensures var s := After(j, Init(cl), run);
      (forall h :: 0 <= h < |s.hops| ==> Gone(s.hops[h], h + 1 == |s.hops|))
      <==> !exists h :: 0 <= h && h + 1 < |s.hops| && Stranded(lim, s.hops[h], s.hops[h + 1])
  {
    hide Inv, Live, Stuck, Init, After, ValidRun, AllTidy;
    var s := After(j, Init(cl), run);
    InitKeeps(j, lim, cl);
    InitIsLive(cl);
    InitTidy(cl);
    EveryRunStaysLive(j, lim, cl, Init(cl), run);
    RunTidy(j, lim, cl, Init(cl), run);
    if forall k :: 0 <= k && k + 1 < |s.hops| ==> !Stranded(lim, s.hops[k], s.hops[k + 1]) {
      forall h | 0 <= h < |s.hops| ensures Gone(s.hops[h], h + 1 == |s.hops|) {
        ClosedUpTo(j, lim, cl, s, h);
      }
    }
  }
}
