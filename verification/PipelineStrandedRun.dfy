/** A run of the pipelined prefill that leaves a worker's evaluation thread waiting for good. */
module PipelineStrandedRun {
  import opened Wire
  import opened TokenHash
  import opened Engine
  import opened WorkerSessions
  import opened Prefill
  import opened Pipeline
  import opened PipelineSafety
  import opened PipelineTheorems
  import opened PipelineProgress
  import opened PipelineFaultFree
  import opened PipelineCalls
  import opened PipelineStranding
  import opened QuietCalls

  /** A state that some run leads to. */
  ghost predicate Reachable(j: Job, lim: Limits, cl: Cluster, s: State)
    requires ValidJob(j) && |cl.hops| == |j.hops|
  {
    |Init(cl).hops| == |j.hops| && exists run :: ValidRun(j, lim, Init(cl), run) && After(j, Init(cl), run) == s
  }

  /** As many chunks as it takes to fill the second hop from its answers back to the socket in front of it. */
  function Enough(lim: Limits): nat {
    2 * lim.capacity + lim.jobDepth + 4
  }

  /** The setting: at least two hops, any depths, enough chunks, windows that let them through, and a plain loop that
      works. */
  ghost predicate Setting(j: Job, lim: Limits, cl: Cluster) {
    && ValidJob(j) && ValidLimits(lim) && |cl.hops| == |j.hops| >= 2 && AllAccept(j, cl)
    && j.count >= Enough(lim) && lim.window >= Enough(lim) && lim.pendingDepth >= Enough(lim)
  }

  lemma SettingMeans(j: Job, lim: Limits, cl: Cluster)
    requires Setting(j, lim, cl)
    ensures ValidJob(j) && ValidLimits(lim) && |cl.hops| == |j.hops| >= 2
    ensures lim.pendingDepth >= Enough(lim)
  {
    hide AllAccept;
  }

  /** The hops behind the second one have seen nothing. */
  predicate Beyond(cl: Cluster, s: State) {
    |s.hops| == |cl.hops| && forall k :: 2 <= k < |s.hops| ==> s.hops[k] == InitHop(cl.hops[k])
  }

  ghost predicate Reached(j: Job, lim: Limits, cl: Cluster, s: State) {
    Setting(j, lim, cl) && Reachable(j, lim, cl, s) && Beyond(cl, s)
  }

  lemma ReachedMeans(j: Job, lim: Limits, cl: Cluster, s: State)
    requires Reached(j, lim, cl, s)
    ensures Setting(j, lim, cl) && ValidJob(j) && ValidLimits(lim) && |s.hops| == |cl.hops| == |j.hops| >= 2
    ensures Reachable(j, lim, cl, s) && Beyond(cl, s) && lim.pendingDepth >= Enough(lim)
  {
    hide Reachable, AllAccept;
  }

  lemma ReachAny(j: Job, lim: Limits, cl: Cluster, s: State, act: Action) returns (s': State)
    requires ValidJob(j) && |cl.hops| == |j.hops| == |s.hops| && Reachable(j, lim, cl, s) && Enabled(j, lim, s, act)
    ensures s' == Apply(j, s, act) && Reachable(j, lim, cl, s')
  {
    hide Enabled, Apply, Init;
    var run :| ValidRun(j, lim, Init(cl), run) && After(j, Init(cl), run) == s;
    var longer: seq<Action>;
    longer, s' := Then(j, lim, Init(cl), run, act);
  }

  /** Steps of the coordinator, of the first hop, and of the second hop towards the first. */
  predicate Near(act: Action) {
    match ActorOf(act)
    case None => true
    case Some(h) => h == 0 || (h == 1 && (act.RxRead? || act.RxPut? || act.EvTake? || act.EvAnswer?))
  }

  lemma Reach(j: Job, lim: Limits, cl: Cluster, s: State, act: Action) returns (s': State)
    requires Reached(j, lim, cl, s) && |s.hops| == |j.hops| >= 1 && Enabled(j, lim, s, act) && Near(act)
    ensures ValidJob(j) && s' == Apply(j, s, act) && |s'.hops| == |s.hops| && Reached(j, lim, cl, s')
  {
    hide Setting, Reachable, Enabled;
    ReachedMeans(j, lim, cl, s);
    s' := ReachAny(j, lim, cl, s, act);
    NearKeepsBeyond(j, cl, s, act);
  }

  lemma NearKeepsBeyond(j: Job, cl: Cluster, s: State, act: Action)
    requires ValidJob(j) && |s.hops| == |j.hops| >= 2 && Beyond(cl, s) && Near(act)
    ensures Beyond(cl, Apply(j, s, act))
  {
    hide ApplyHop;
    match ActorOf(act) {
      case None => CoordinatorTouchesFirst(j, s, act);
      case Some(h) =>
    }
  }

  lemma CoordinatorTouchesFirst(j: Job, s: State, act: Action)
    requires ValidJob(j) && |s.hops| == |j.hops|
    ensures forall k :: 1 <= k < |s.hops| ==> ApplyCoordinator(j, s, act).hops[k] == s.hops[k]
  {
    hide LocalHidden, LocalSucceeds, LocalAfter, FrameOf, Acceptable, IsRemoteError;
  }

  lemma ReachedKeeps(j: Job, lim: Limits, cl: Cluster, s: State)
    requires Setting(j, lim, cl) && |s.hops| == |j.hops| && Reachable(j, lim, cl, s)
    ensures Inv(j, lim, cl, s) && Live(s)
  {
    hide Inv, Live, Init, ValidRun, After;
    var run :| ValidRun(j, lim, Init(cl), run) && After(j, Init(cl), run) == s;
    StartHasInvariants(j, lim, cl, true);
    EveryRunStaysLive(j, lim, cl, Init(cl), run);
  }

  /** The steps of the first hop, and what they do to the second. */
  lemma FirstHopMoves(j: Job, s: State, act: Action)
    requires ValidJob(j) && |s.hops| == |j.hops| >= 2 && ActorOf(act) == Some(0)
    ensures Apply(j, s, act)
         == s.(hops := s.hops[0 := ApplyHop(j, 0, s.hops[0], Some(s.hops[1]), act)]
                             [1 := ApplyNext(s.hops[0], s.hops[1], act)])
  {
    hide ApplyHop, ApplyNext, ActorOf;
  }

  function Third(s: State): Option<Hop> {
    if |s.hops| > 2 then Some(s.hops[2]) else None
  }

  lemma SecondHopMoves(j: Job, s: State, act: Action)
    requires ValidJob(j) && |s.hops| == |j.hops| >= 2 && ActorOf(act) == Some(1) && Near(act)
    ensures Apply(j, s, act) == s.(hops := s.hops[1 := ApplyHop(j, 1, s.hops[1], Third(s), act)])
  {
    hide ApplyHop, ActorOf;
    if |s.hops| > 2 {
      var hops := s.hops[1 := ApplyHop(j, 1, s.hops[1], Third(s), act)];
      assert hops[2 := s.hops[2]] == hops;
    }
  }

  // ---------------------------------------------------------------- a chunk on its way through the first hop

  /** The coordinator between two chunks, with nothing read so far. */
  predicate Between(s: State, submitted: nat) {
    && s.prod.pc.PTop? && s.prod.submitted == submitted && !s.prod.failed
    && s.read == Reader(0, false, false, false, None)
    && s.send.pc.SWait? && !s.send.stop && !s.send.failed && !s.send.producerDone
  }

  /** The first hop after it read and took so many frames, and answered none. */
  predicate FirstAt(a: Hop, read: nat, taken: nat) {
    && a.link.open && a.link.up == Channel([], 0) && a.link.down.taken == read
    && a.rx.RxRun? && !a.jobsClosed && !a.broken && !a.fwd.closed && a.popped == taken
  }

  lemma Submit(j: Job, lim: Limits, cl: Cluster, s: State, i: nat) returns (s': State)
    requires Reached(j, lim, cl, s) && |s.hops| == |j.hops| && Between(s, i) && i < Enough(lim) && s.send.queue == []
    ensures Reached(j, lim, cl, s') && Between(s', i + 1) && s'.hops == s.hops && |s'.send.queue| == 1
  {
    hide Reached, Setting, LocalHidden, LocalAfter, LocalSucceeds, FrameOf;
    ReachedMeans(j, lim, cl, s);
    WindowIsOpen(j, lim, cl);
    var s1 := Reach(j, lim, cl, s, PWindow);
    var s2 := Reach(j, lim, cl, s1, PTake);
    LocallyWorks(j, lim, cl, s2, i);
    var s3 := Reach(j, lim, cl, s2, PLocal(ResetWorks, EvalWorks));
    s' := Reach(j, lim, cl, s3, PPut);
  }

  lemma WindowIsOpen(j: Job, lim: Limits, cl: Cluster)
    requires Setting(j, lim, cl)
    ensures lim.window >= Enough(lim) && j.count >= Enough(lim) && lim.slots >= 1
  {
    hide AllAccept;
  }

  lemma LocallyWorks(j: Job, lim: Limits, cl: Cluster, s: State, i: nat)
    requires Reached(j, lim, cl, s) && s.prod.submitted == i < Enough(lim) && s.prod.pc.PEval? && !s.prod.failed
    ensures ValidJob(j) && LocalSucceeds(j, s.prod, ResetWorks, EvalWorks)
  {
    hide Inv, Live, Reachable, SenderInv, ReaderInv, LocalAt, LocalAccepts, HiddenInto, LocalSucceeds, Accepts;
    ReachedKeeps(j, lim, cl, s);
    ThreadsOf(j, lim, cl, s);
    LocalWorks(j, cl, s.prod, ResetWorks, EvalWorks);
  }

  lemma SendOne(j: Job, lim: Limits, cl: Cluster, s: State, i: nat) returns (s': State)
    requires Reached(j, lim, cl, s) && |s.hops| == |j.hops| >= 2 && Between(s, i + 1) && |s.send.queue| == 1
    requires FirstAt(s.hops[0], i, i) && |s.hops[0].link.down.log| == i
    ensures Reached(j, lim, cl, s') && |s'.hops| == |j.hops| && Between(s', i + 1) && s'.send.queue == []
    ensures s'.hops[1] == s.hops[1] && s'.hops[0] == s.hops[0].(link := s'.hops[0].link)
    ensures FirstAt(s'.hops[0], i, i) && |s'.hops[0].link.down.log| == i + 1
  {
    hide Reached;
    ReachedMeans(j, lim, cl, s);
    hide Setting, Beyond, Reachable;
    var s1 := Reach(j, lim, cl, s, SStep);
    var s2 := Reach(j, lim, cl, s1, SWrite);
    s' := Reach(j, lim, cl, s2, SPop);
  }

  lemma ReadOne(j: Job, lim: Limits, cl: Cluster, s: State, i: nat) returns (s': State)
    requires Reached(j, lim, cl, s) && |s.hops| == |j.hops| >= 2
    requires FirstAt(s.hops[0], i, i) && |s.hops[0].link.down.log| == i + 1 && s.hops[0].jobs == []
    ensures Reached(j, lim, cl, s') && |s'.hops| == |j.hops| && s' == s.(hops := s'.hops) && s'.hops[1] == s.hops[1]
    ensures FirstAt(s'.hops[0], i + 1, i) && |s'.hops[0].link.down.log| == i + 1 && |s'.hops[0].jobs| == 1
    ensures s'.hops[0].ev == s.hops[0].ev && s'.hops[0].fwd == s.hops[0].fwd
  {
    hide Reached, Apply, Setting, Beyond, Reachable;
    ReachedMeans(j, lim, cl, s);
    var s1 := Reach(j, lim, cl, s, RxRead(0));
    FirstHopMoves(j, s, RxRead(0));
    s' := Reach(j, lim, cl, s1, RxPut(0));
    FirstHopMoves(j, s1, RxPut(0));
  }

  lemma TakeOne(j: Job, lim: Limits, cl: Cluster, s: State, i: nat) returns (s': State)
    requires Reached(j, lim, cl, s) && |s.hops| == |j.hops| >= 2 && i < Enough(lim)
    requires FirstAt(s.hops[0], i + 1, i) && |s.hops[0].jobs| == 1 && s.hops[0].ev.EvIdle?
    requires |s.hops[0].fwd.pending| < Enough(lim)
    ensures Reached(j, lim, cl, s') && |s'.hops| == |j.hops| && s' == s.(hops := s'.hops) && s'.hops[1] == s.hops[1]
    ensures FirstAt(s'.hops[0], i + 1, i + 1) && s'.hops[0].jobs == [] && s'.hops[0].link == s.hops[0].link
    ensures s'.hops[0].ev.EvSending? && s'.hops[0].fwd.relay == s.hops[0].fwd.relay
    ensures |s'.hops[0].fwd.pending| == |s.hops[0].fwd.pending| + 1
  {
    hide Reached, Apply, Setting, Beyond, Reachable, Found, Evaluates, RunWork, Prepare, Forwarded, LastPayload;
    var take := EvTake(0, false, ResetWorks, EvalWorks);
    ReachedMeans(j, lim, cl, s);
    TakenWorks(j, lim, cl, s, i);
    var s1 := Reach(j, lim, cl, s, take);
    FirstHopMoves(j, s, take);
    s' := Reach(j, lim, cl, s1, EvTrack(0));
    FirstHopMoves(j, s1, EvTrack(0));
  }

  lemma TakenWorks(j: Job, lim: Limits, cl: Cluster, s: State, i: nat)
    requires Reached(j, lim, cl, s) && |s.hops| == |j.hops| >= 2 && i < Enough(lim)
    requires s.hops[0].popped == i && s.hops[0].jobs != [] && !s.hops[0].broken
    ensures Evaluates(j.hops[0], Found(j, 0, i, s.hops[0].session), s.hops[0].jobs[0], ResetWorks, EvalWorks)
  {
    hide Reachable, Live, CountsInv, ContentInv, PairInv, LastInv, ProducerInv, SenderInv, ReaderInv, Accepts,
         LocalAccepts, Evaluates, Found;
    ReachedKeeps(j, lim, cl, s);
    assert HopInv(j, cl, s, 0) && Sound(s, 0);
    assert Accepts(j, cl, 0, i);
    TakeWorks(j, cl, 0, s.hops[0]);
  }

  /** What the next chunk finds: everything before it has been sent, read, taken and passed on. */
  predicate Ready(s: State, i: nat) {
    && |s.hops| >= 2 && Between(s, i) && s.send.queue == []
    && FirstAt(s.hops[0], i, i) && |s.hops[0].link.down.log| == i && s.hops[0].jobs == [] && s.hops[0].ev.EvIdle?
    && |s.hops[0].fwd.pending| <= i
  }

  /** And after it has come to the first hop, whose evaluation thread is about to write it on. */
  predicate Pushed(s: State, i: nat) {
    && |s.hops| >= 2 && Between(s, i) && s.send.queue == []
    && FirstAt(s.hops[0], i, i) && |s.hops[0].link.down.log| == i && s.hops[0].jobs == [] && s.hops[0].ev.EvSending?
    && |s.hops[0].fwd.pending| <= i
  }

  lemma Push(j: Job, lim: Limits, cl: Cluster, s: State, i: nat) returns (s': State)
    requires Reached(j, lim, cl, s) && Ready(s, i) && i < Enough(lim)
    ensures Reached(j, lim, cl, s') && Pushed(s', i + 1)
    ensures s'.hops[0].fwd.relay == s.hops[0].fwd.relay && s'.hops[1] == s.hops[1]
  {
    hide Reached, Setting;
    ReachedMeans(j, lim, cl, s);
    s' := Submit(j, lim, cl, s, i);
    s' := SendOne(j, lim, cl, s', i);
    s' := ReadOne(j, lim, cl, s', i);
    s' := TakeOne(j, lim, cl, s', i);
  }

  /** It writes it. */
  lemma PassOn(j: Job, lim: Limits, cl: Cluster, s: State, i: nat) returns (s': State)
    requires Reached(j, lim, cl, s) && Pushed(s, i)
    requires s.hops[1].link.open && s.hops[1].link.down.HasRoom(lim.capacity)
    ensures Reached(j, lim, cl, s') && Ready(s', i) && s'.hops[0].fwd == s.hops[0].fwd
    ensures var b, b' := s.hops[1], s'.hops[1];
      b' == b.(link := b'.link) && b'.link == b.link.(down := b'.link.down)
      && b'.link.down.taken == b.link.down.taken && |b'.link.down.log| == |b.link.down.log| + 1
  {
    hide Reached, Apply, Setting, Beyond, Reachable;
    ReachedMeans(j, lim, cl, s);
    s' := Reach(j, lim, cl, s, EvWrite(0));
    FirstHopMoves(j, s, EvWrite(0));
  }

  // ---------------------------------------------------------------- the second hop

  /** The second hop reads a frame. */
  lemma SecondReads(j: Job, lim: Limits, cl: Cluster, s: State) returns (s': State)
    requires Reached(j, lim, cl, s) && |s.hops| >= 2 && s.hops[1].rx.RxRun? && s.hops[1].link.down.HasNext()
    ensures Reached(j, lim, cl, s') && |s'.hops| == |s.hops| && s' == s.(hops := s'.hops) && s'.hops[0] == s.hops[0]
    ensures var b, b' := s.hops[1], s'.hops[1];
      b' == b.(link := b'.link, rx := b'.rx) && b'.rx.RxHold? && b'.link == b.link.(down := b.link.down.Read())
  {
    hide Reached, Apply, Setting, Beyond, Reachable;
    ReachedMeans(j, lim, cl, s);
    s' := Reach(j, lim, cl, s, RxRead(1));
    SecondHopMoves(j, s, RxRead(1));
  }

  /** And queues it. */
  lemma SecondQueues(j: Job, lim: Limits, cl: Cluster, s: State) returns (s': State)
    requires Reached(j, lim, cl, s) && |s.hops| >= 2
    requires s.hops[1].rx.RxHold? && |s.hops[1].jobs| < lim.jobDepth && !s.hops[1].jobsClosed
    ensures Reached(j, lim, cl, s') && |s'.hops| == |s.hops| && s' == s.(hops := s'.hops) && s'.hops[0] == s.hops[0]
    ensures var b, b' := s.hops[1], s'.hops[1]; b' == b.(rx := RxRun, jobs := b'.jobs) && |b'.jobs| == |b.jobs| + 1
  {
    hide Reached, Apply, Setting, Beyond, Reachable;
    ReachedMeans(j, lim, cl, s);
    s' := Reach(j, lim, cl, s, RxPut(1));
    SecondHopMoves(j, s, RxPut(1));
  }

  /** Its slice fails on the job. */
  lemma SecondFails(j: Job, lim: Limits, cl: Cluster, s: State) returns (s': State)
    requires Reached(j, lim, cl, s) && |s.hops| >= 2 && s.hops[1].ev.EvIdle? && |s.hops[1].jobs| == 1
    ensures Reached(j, lim, cl, s') && |s'.hops| == |s.hops| && s' == s.(hops := s'.hops) && s'.hops[0] == s.hops[0]
    ensures var b, b' := s.hops[1], s'.hops[1];
      b'.link == b.link && b'.rx == b.rx && b'.jobs == [] && b'.jobsClosed == b.jobsClosed && b'.fwd == b.fwd
      && b'.ev.EvReply? && !b'.ev.thenClose
  {
    hide Reached, Apply, Setting, Beyond, Reachable, Found, Evaluates, RunWork, Prepare, Forwarded, LastPayload;
    ReachedMeans(j, lim, cl, s);
    var kv := j.hops[1].emptyKv;
    var take := EvTake(1, false, ResetWorks, EvalFails(kv));
    FailingEval(j.hops[1], Found(j, 1, s.hops[1].popped, s.hops[1].session), s.hops[1].jobs[0], kv);
    s' := Reach(j, lim, cl, s, take);
    SecondHopMoves(j, s, take);
  }

  /** And it says so. */
  lemma SecondAnswers(j: Job, lim: Limits, cl: Cluster, s: State) returns (s': State)
    requires Reached(j, lim, cl, s) && |s.hops| >= 2 && s.hops[1].ev.EvReply? && !s.hops[1].ev.thenClose
    requires s.hops[1].link.open && s.hops[1].link.up.HasRoom(lim.capacity)
    ensures Reached(j, lim, cl, s') && |s'.hops| == |s.hops| && s' == s.(hops := s'.hops) && s'.hops[0] == s.hops[0]
    ensures var b, b' := s.hops[1], s'.hops[1];
      && b' == b.(link := b'.link, ev := EvIdle) && b'.link == b.link.(up := b'.link.up)
      && |b'.link.up.log| == |b.link.up.log| + 1 && b'.link.up.taken == b.link.up.taken
  {
    hide Reached, Apply, Setting, Beyond, Reachable;
    ReachedMeans(j, lim, cl, s);
    s' := Reach(j, lim, cl, s, EvAnswer(1));
    SecondHopMoves(j, s, EvAnswer(1));
  }

  /** The first hop's relay reads an answer, and will pass one on. */
  lemma RelayTakes(j: Job, lim: Limits, cl: Cluster, s: State, i: nat) returns (s': State)
    requires Reached(j, lim, cl, s) && Ready(s, i)
    requires s.hops[0].fwd.relay.RlRun? && s.hops[0].fwd.pending != [] && s.hops[1].link.up.HasNext()
    ensures Reached(j, lim, cl, s') && Ready(s', i) && s'.hops[0].fwd.relay.RlHold?
    ensures s'.hops[1] == s.hops[1].(link := s.hops[1].link.(up := s.hops[1].link.up.Read()))
  {
    hide Reached, Apply, Setting, Beyond, Reachable;
    ReachedMeans(j, lim, cl, s);
    s' := Reach(j, lim, cl, s, RlRead(0));
    FirstHopMoves(j, s, RlRead(0));
  }

  // ---------------------------------------------------------------- filling the second hop

  /** The second hop after so many frames were written to it, so many of them read, and so many answers written, of
      which so many were read. */
  predicate SecondAt(b: Hop, written: nat, read: nat, answered: nat, answersRead: nat) {
    && b.link.open && !b.jobsClosed && b.fwd.relay.RlRun?
    && |b.link.down.log| == written && b.link.down.taken == read
    && |b.link.up.log| == answered && b.link.up.taken == answersRead
  }

  /** It waits for its next frame. */
  predicate Waits(b: Hop, i: nat, answersRead: nat) {
    SecondAt(b, i, i, i, answersRead) && b.rx.RxRun? && b.jobs == [] && b.ev.EvIdle?
  }

  lemma StartReady(j: Job, lim: Limits, cl: Cluster) returns (s: State)
    requires Setting(j, lim, cl)
    ensures Reached(j, lim, cl, s) && Ready(s, 0) && Waits(s.hops[1], 0, 0) && s.hops[0].fwd.relay.RlRun?
  {
    hide AllAccept;
    s := Init(cl);
    StandsStill(j, lim, s);
  }

  /** One more chunk, on which the second hop fails and says so. */
  lemma AnswerOne(j: Job, lim: Limits, cl: Cluster, s: State, i: nat, answersRead: nat) returns (s': State)
    requires Reached(j, lim, cl, s) && ValidLimits(lim) && Ready(s, i) && i < Enough(lim)
    requires Waits(s.hops[1], i, answersRead) && i < answersRead + lim.capacity
    ensures Reached(j, lim, cl, s') && Ready(s', i + 1) && Waits(s'.hops[1], i + 1, answersRead)
    ensures s'.hops[0].fwd.relay == s.hops[0].fwd.relay
  {
    hide Reached, FirstAt;
    s' := Push(j, lim, cl, s, i);
    s' := PassOn(j, lim, cl, s', i + 1);
    s' := SecondReads(j, lim, cl, s');
    s' := SecondQueues(j, lim, cl, s');
    s' := SecondFails(j, lim, cl, s');
    s' := SecondAnswers(j, lim, cl, s');
  }

  /** The relay has taken the first answer and not passed it on; more answers follow until their socket is full. */
  lemma {:induction false} AnswersFill(j: Job, lim: Limits, cl: Cluster, s: State, i: nat) returns (s': State)
    requires Reached(j, lim, cl, s) && ValidLimits(lim) && Ready(s, i) && 1 <= i <= lim.capacity + 1
    requires Waits(s.hops[1], i, 1) && s.hops[0].fwd.relay.RlHold?
    ensures Reached(j, lim, cl, s') && Ready(s', lim.capacity + 1) && Waits(s'.hops[1], lim.capacity + 1, 1)
    ensures s'.hops[0].fwd.relay.RlHold?
    decreases lim.capacity + 1 - i
  {
    hide Reached, Ready, Waits;
    if i == lim.capacity + 1 {
      s' := s;
    } else {
      s' := AnswerOne(j, lim, cl, s, i, 1);
      s' := AnswersFill(j, lim, cl, s', i + 1);
    }
  }

  /** It then fails on one more chunk and cannot say so: the frames behind it fill its queue. */
  predicate Choked(b: Hop, lim: Limits, i: nat) {
    && SecondAt(b, i, i, lim.capacity + 1, 1) && b.ev.EvReply? && b.rx.RxRun?
    && |b.jobs| + lim.capacity + 2 == i
  }

  lemma Chokes(j: Job, lim: Limits, cl: Cluster) returns (s: State)
    requires Setting(j, lim, cl) && ValidLimits(lim)
    ensures Reached(j, lim, cl, s) && Ready(s, lim.capacity + 2) && Choked(s.hops[1], lim, lim.capacity + 2)
    ensures s.hops[0].fwd.relay.RlHold?
  {
    hide Setting, Reached, FirstAt;
    s := StartReady(j, lim, cl);
    s := AnswerOne(j, lim, cl, s, 0, 0);
    RelayHasPending(j, lim, cl, s);
    s := RelayTakes(j, lim, cl, s, 1);
    s := AnswersFill(j, lim, cl, s, 1);
    s := Push(j, lim, cl, s, lim.capacity + 1);
    s := PassOn(j, lim, cl, s, lim.capacity + 2);
    s := SecondReads(j, lim, cl, s);
    s := SecondQueues(j, lim, cl, s);
    s := SecondFails(j, lim, cl, s);
  }

  lemma RelayHasPending(j: Job, lim: Limits, cl: Cluster, s: State)
    requires Reached(j, lim, cl, s) && Ready(s, 1) && Waits(s.hops[1], 1, 0)
    ensures s.hops[0].fwd.pending != []
  {
    hide Setting, Reachable, Inv;
    ReachedMeans(j, lim, cl, s);
    ReachedKeeps(j, lim, cl, s);
    assert Balance(s.hops[0], s.hops[1]);
  }

  lemma {:induction false} JobsFill(j: Job, lim: Limits, cl: Cluster, s: State, i: nat) returns (s': State)
    requires Reached(j, lim, cl, s) && ValidLimits(lim) && Ready(s, i) && s.hops[0].fwd.relay.RlHold?
    requires Choked(s.hops[1], lim, i) && |s.hops[1].jobs| <= lim.jobDepth
    ensures var n := lim.capacity + lim.jobDepth + 2;
      Reached(j, lim, cl, s') && Ready(s', n) && Choked(s'.hops[1], lim, n)
    ensures s'.hops[0].fwd.relay.RlHold?
    decreases lim.jobDepth - |s.hops[1].jobs|
  {
    hide Reached, FirstAt;
    if |s.hops[1].jobs| == lim.jobDepth {
      s' := s;
    } else {
      s' := Push(j, lim, cl, s, i);
      s' := PassOn(j, lim, cl, s', i + 1);
      s' := SecondReads(j, lim, cl, s');
      s' := SecondQueues(j, lim, cl, s');
      s' := JobsFill(j, lim, cl, s', i + 1);
    }
  }

  /** Its receive loop holds a frame that has no room in the queue: the frames behind it fill its socket. */
  predicate Blocked(b: Hop, lim: Limits, i: nat) {
    && SecondAt(b, i, lim.capacity + lim.jobDepth + 3, lim.capacity + 1, 1)
    && b.ev.EvReply? && b.rx.RxHold? && |b.jobs| == lim.jobDepth
  }

  lemma Blocks(j: Job, lim: Limits, cl: Cluster) returns (s: State)
    requires Setting(j, lim, cl) && ValidLimits(lim)
    ensures var n := lim.capacity + lim.jobDepth + 3;
      Reached(j, lim, cl, s) && Ready(s, n) && Blocked(s.hops[1], lim, n)
    ensures s.hops[0].fwd.relay.RlHold?
  {
    hide Setting, Reached, FirstAt;
    s := Chokes(j, lim, cl);
    s := JobsFill(j, lim, cl, s, lim.capacity + 2);
    s := Push(j, lim, cl, s, lim.capacity + lim.jobDepth + 2);
    s := PassOn(j, lim, cl, s, lim.capacity + lim.jobDepth + 3);
    s := SecondReads(j, lim, cl, s);
  }

  lemma {:induction false} SocketFills(j: Job, lim: Limits, cl: Cluster, s: State, i: nat) returns (s': State)
    requires Reached(j, lim, cl, s) && ValidLimits(lim) && Ready(s, i) && s.hops[0].fwd.relay.RlHold?
    requires Blocked(s.hops[1], lim, i) && lim.capacity + lim.jobDepth + 3 <= i < Enough(lim)
    ensures Reached(j, lim, cl, s') && Ready(s', Enough(lim) - 1) && Blocked(s'.hops[1], lim, Enough(lim) - 1)
    ensures s'.hops[0].fwd.relay.RlHold?
    decreases Enough(lim) - i
  {
    hide Reached, FirstAt;
    if i == Enough(lim) - 1 {
      s' := s;
    } else {
      s' := Push(j, lim, cl, s, i);
      s' := PassOn(j, lim, cl, s', i + 1);
      s' := SocketFills(j, lim, cl, s', i + 1);
    }
  }

  /** The second hop with everything in it that it can hold. */
  predicate Full(lim: Limits, b: Hop) {
    && b.link.open && b.rx.RxHold? && |b.jobs| == lim.jobDepth && !b.jobsClosed && b.ev.EvReply? && b.fwd.relay.RlRun?
    && !b.link.up.HasRoom(lim.capacity) && !b.link.down.HasRoom(lim.capacity)
  }

  /** A relay that holds a result, a second hop that is full, and a first hop that writes one more frame. */
  predicate Jammed(lim: Limits, s: State) {
    && |s.hops| >= 2 && s.hops[0].link.open && s.hops[0].ev.EvSending? && s.hops[0].fwd.relay.RlHold?
    && Full(lim, s.hops[1])
  }

  lemma JammedIsReachable(j: Job, lim: Limits, cl: Cluster) returns (s: State)
    requires Setting(j, lim, cl) && ValidLimits(lim)
    ensures Reached(j, lim, cl, s) && Jammed(lim, s)
  {
    hide Setting, Reached;
    s := Blocks(j, lim, cl);
    s := SocketFills(j, lim, cl, s, lim.capacity + lim.jobDepth + 3);
    s := Push(j, lim, cl, s, Enough(lim) - 1);
  }

  // ---------------------------------------------------------------- and then the upstream socket goes down

  /** The first hop's relay has exited, its evaluation thread writes, and the second hop is full and stays so. */
  predicate Stays(lim: Limits, cl: Cluster, b: Hop, s: State) {
    && Beyond(cl, s) && |s.hops| >= 2 && !s.hops[0].link.open && s.hops[0].ev.EvSending? && s.hops[0].fwd.relay.RlDone?
    && s.hops[1] == b && Full(lim, b)
  }

  lemma RelayGivesUp(j: Job, lim: Limits, cl: Cluster, s: State) returns (s': State)
    requires Reached(j, lim, cl, s) && Jammed(lim, s)
    ensures Reached(j, lim, cl, s') && Stays(lim, cl, s.hops[1], s')
  {
    hide Reached, Apply, Setting, Beyond, Reachable, Full;
    ReachedMeans(j, lim, cl, s);
    var s1 := Reach(j, lim, cl, s, Fault(0));
    FirstHopMoves(j, s, Fault(0));
    s' := Reach(j, lim, cl, s1, RlWriteFails(0));
    FirstHopMoves(j, s1, RlWriteFails(0));
    ReachedMeans(j, lim, cl, s');
  }

  /** No step but a further fault ends it. */
  lemma StepStays(j: Job, lim: Limits, cl: Cluster, b: Hop, s: State, act: Action)
    requires ValidJob(j) && ValidLimits(lim) && |s.hops| == |j.hops| && Stays(lim, cl, b, s)
    requires Enabled(j, lim, s, act) && !IsFault(s, act)
    ensures Stays(lim, cl, b, Apply(j, s, act))
  {
    hide Apply, Enabled, Full, Beyond;
    match ActorOf(act) {
      case None => CoordinatorStays(j, lim, cl, b, s, act);
      case Some(h) =>
        ActorInRange(j, lim, s, act);
        if h == 0 {
          FirstStays(j, lim, cl, b, s, act);
        } else if h == 1 {
          SecondIsStill(j, lim, cl, b, s, act);
        } else {
          OthersAreStill(j, lim, cl, s, act);
        }
    }
  }

  lemma CoordinatorStays(j: Job, lim: Limits, cl: Cluster, b: Hop, s: State, act: Action)
    requires ValidJob(j) && |s.hops| == |j.hops| && Stays(lim, cl, b, s) && ActorOf(act) == None
    requires Enabled(j, lim, s, act)
    ensures Stays(lim, cl, b, Apply(j, s, act))
  {
    hide LocalHidden, LocalSucceeds, LocalAfter, FrameOf, Acceptable, IsRemoteError, Full, Beyond;
    assert Near(act);
    NearKeepsBeyond(j, cl, s, act);
    CoordinatorTouchesFirst(j, s, act);
  }

  lemma FirstStays(j: Job, lim: Limits, cl: Cluster, b: Hop, s: State, act: Action)
    requires ValidJob(j) && ValidLimits(lim) && |s.hops| == |j.hops| && Stays(lim, cl, b, s) && ActorOf(act) == Some(0)
    requires Enabled(j, lim, s, act) && !IsFault(s, act)
    ensures Stays(lim, cl, b, Apply(j, s, act))
  {
    hide Apply, RunJob, Found, Beyond;
    NearKeepsBeyond(j, cl, s, act);
    FirstHopMoves(j, s, act);
  }

  lemma SecondIsStill(j: Job, lim: Limits, cl: Cluster, b: Hop, s: State, act: Action)
    requires |s.hops| == |j.hops| && Stays(lim, cl, b, s) && ActorOf(act) == Some(1) && Enabled(j, lim, s, act)
    ensures IsFault(s, act)
  {
    if |s.hops| > 2 { assert s.hops[2] == InitHop(cl.hops[2]); }
  }

  lemma OthersAreStill(j: Job, lim: Limits, cl: Cluster, s: State, act: Action)
    requires |s.hops| == |j.hops| >= 1 && Beyond(cl, s) && ActorOf(act).Some? && ActorOf(act).value >= 2
    requires Enabled(j, lim, s, act)
    ensures IsFault(s, act)
  {
    hide EnabledCoordinator, EnabledMiddle, EnabledAny;
    var h := ActorOf(act).value;
    if h < |s.hops| { FreshIsStill(lim, cl.hops[h], act); }
    if h + 1 < |s.hops| { FreshPairIsStill(lim, cl.hops[h], cl.hops[h + 1], act); }
  }

  lemma FreshIsStill(lim: Limits, ws: WorkerSession, act: Action)
    ensures EnabledAny(lim, InitHop(ws), act) ==> act.Fault?
  {
  }

  lemma FreshPairIsStill(lim: Limits, ws: WorkerSession, next: WorkerSession, act: Action)
    ensures EnabledMiddle(lim, InitHop(ws), InitHop(next), act) ==> act.Fault?
  {
  }

  /** Runs on without faults until nobody can step. */
  lemma {:induction false} RunsOut(j: Job, lim: Limits, cl: Cluster, b: Hop, s: State) returns (end: State)
    requires Setting(j, lim, cl) && |s.hops| == |j.hops| && Reachable(j, lim, cl, s) && Stays(lim, cl, b, s)
    ensures |end.hops| == |j.hops| && Reachable(j, lim, cl, end) && Stays(lim, cl, b, end) && Stuck(j, lim, end)
    decreases Measure(j, s)
  {
    hide Setting, Reachable, Inv, Live, Enabled, IsFault, Apply, Measure, Stays;
    SettingMeans(j, lim, cl);
    ReachedKeeps(j, lim, cl, s);
    MeasureNonNegative(j, lim, cl, s);
    if Stuck(j, lim, s) {
      end := s;
    } else {
      var act :| Enabled(j, lim, s, act) && !IsFault(s, act);
      StepFalls(j, lim, s, act);
      StepStays(j, lim, cl, b, s, act);
      var next := ReachAny(j, lim, cl, s, act);
      end := RunsOut(j, lim, cl, b, next);
    }
  }

  lemma StaysMeans(lim: Limits, cl: Cluster, b: Hop, s: State)
    requires Stays(lim, cl, b, s)
    ensures |s.hops| >= 2 && Stranded(lim, s.hops[0], s.hops[1])
  {
  }

  /** Workers can be left behind, whatever the depths of queues and sockets.  With at least two hops and enough chunks
      that every check of the plain loop passes, some run loses the first socket and ends with all three coordinator
      threads gone, nobody able to step, and the first hop's evaluation thread waiting on the second hop's socket
      for good. */
  lemma SomeWorkerIsStranded(j: Job, lim: Limits, cl: Cluster) returns (run: seq<Action>)
    requires Setting(j, lim, cl)
    ensures |Init(cl).hops| == |j.hops| >= 2 && ValidRun(j, lim, Init(cl), run)
    ensures var s := After(j, Init(cl), run); Stuck(j, lim, s) && Finished(s) && Stranded(lim, s.hops[0], s.hops[1])
  {
    hide Setting, Inv, Live, Init, ValidRun, After, Stuck, Stays, Stranded;
    SettingMeans(j, lim, cl);
    var s := JammedIsReachable(j, lim, cl);
    var b := s.hops[1];
    s := RelayGivesUp(j, lim, cl, s);
    s := RunsOut(j, lim, cl, b, s);
    StaysMeans(lim, cl, b, s);
    ReachedKeeps(j, lim, cl, s);
    StuckOnlyWhenFinished(j, lim, cl, s);
    run :| ValidRun(j, lim, Init(cl), run) && After(j, Init(cl), run) == s;
  }

  // ---------------------------------------------------------------- a call that does it

  /** A prompt of n tokens, sent one by one with a reset, and nobody else around. */
  function LongJob(local: SliceEngine, hops: seq<SliceEngine>, wire: Hidden -> Hidden, head: (Hidden, nat) -> Logits,
                   n: nat): Job {
    Job(local, hops, wire, head, true, seq(n, i => 7), 0, n, 1, true, true, 1, 1, n,
        seq(n + 1, i requires i >= 0 => HashPrefix(seq(i, k => 7))),
        (h, i) => [])
  }

  lemma LongJobIsQuiet(j: Job, n: nat)
    requires j == LongJob(j.local, j.hops, j.wire, j.head, n) && |j.hops| >= 1 && n >= 1
    ensures ValidJob(j) && Precomputed(j) && Quiet(j) && Count(j) == n
  {
    hide HashPrefix, LeavesAlone;
    assert j.strays == ((h, i) => []);
    forall i | 0 <= i <= n ensures j.hashes[i] == HashBefore(j, i) {
      ChunkStartIsClamped(j, i);
      assert j.prompt[..i] == seq(i, k => 7);
    }
  }

  /** For every choice of limits whose windows are wide enough, and any slices, some call strands a worker. */
  lemma SomeCallStrands(local: SliceEngine, hops: seq<SliceEngine>, wire: Hidden -> Hidden,
                        head: (Hidden, nat) -> Logits, lim: Limits, cl: Cluster) returns (j: Job, run: seq<Action>)
    requires |cl.hops| == |hops| >= 2 && ValidLimits(lim)
    requires lim.window >= Enough(lim) && lim.pendingDepth >= Enough(lim)
    ensures ValidJob(j) && Precomputed(j) && j.local == local && j.hops == hops
    ensures |Init(cl).hops| == |j.hops| >= 2 && ValidRun(j, lim, Init(cl), run)
    ensures var s := After(j, Init(cl), run); Stuck(j, lim, s) && Finished(s) && Stranded(lim, s.hops[0], s.hops[1])
  {
    hide AllAccept, Quiet, Precomputed, Init, ValidRun, After, Stuck, Stranded, HashPrefix;
    j := LongJob(local, hops, wire, head, Enough(lim));
    LongJobIsQuiet(j, Enough(lim));
    QuietIsAccepted(j, cl);
    run := SomeWorkerIsStranded(j, lim, cl);
  }
}
