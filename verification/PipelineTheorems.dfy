/** Every run of the pipelined prefill: the invariant is kept by every step, and its consequences. */
module PipelineTheorems {
  import opened Wire
  import opened TokenHash
  import opened Engine
  import opened WorkerSessions
  import opened Prefill
  import opened Pipeline
  import opened PipelineSafety

  // ---------------------------------------------------------------- a hop steps

  /** What a hop's step does to the next hop: only their socket, and only what the table allows. */
  ghost predicate NextTouched(j: Job, cl: Cluster, h: nat, sound: bool, a: Hop, b: Hop, b': Hop)
    requires ValidJob(j) && |cl.hops| == |j.hops| && h + 1 < |j.hops|
  {
    && SameButSocket(b, b')
    && b'.broken == b.broken
    && b'.link.down.taken == b.link.down.taken
    && b'.link.up.taken <= |b'.link.up.log|
    && (b'.link.down.log == b.link.down.log ||
        exists w :: b'.link.down.log == b.link.down.log + [w]
                 && (sound && !a.broken ==> w == FrameAt(j, cl, h + 1, |b.link.down.log|)))
  }

  lemma MiddleTouchesNext(j: Job, lim: Limits, cl: Cluster, h: nat, sound: bool, a: Hop, b: Hop, act: Action)
    requires ValidJob(j) && |cl.hops| == |j.hops| && h + 1 < |j.hops|
    requires CountsInv(b) && PairInv(j, cl, h, sound, a, b)
    requires ActorOf(act) == Some(h) && EnabledMiddle(lim, a, b, act)
    ensures NextTouched(j, cl, h, sound, a, b, ApplyNext(a, b, act))
  {
    hide CleanLen, RelayInv, FrameAt;
    if act.EvWrite? {
      assert ApplyNext(a, b, act).link.down.log == b.link.down.log + [a.ev.w];
    }
  }

  /** The reader only depends on the first hop's answers, which only grow. */
  lemma ReaderFrame(j: Job, s: State, s': State)
    requires |s.hops| >= 1 && |s'.hops| >= 1
    requires ReaderInv(j, s) && s'.read == s.read && UpGrows(s.hops[0], s'.hops[0])
    ensures ReaderInv(j, s')
  {
    hide CleanLen, Acceptable;
    var a, a' := s.hops[0], s'.hops[0];
    if a'.link.up.log != a.link.up.log {
      var r :| a'.link.up.log == a.link.up.log + [r];
      CleanLenAppend(a.link.up.log, r);
    }
  }

  lemma SelfGrows(a: Hop)
    ensures UpGrows(a, a)
  {
  }

  lemma CoordinatorFrame(j: Job, lim: Limits, cl: Cluster, s: State, s': State)
    requires ValidJob(j) && |cl.hops| == |j.hops| == |s.hops| == |s'.hops|
    requires ProducerInv(j, lim, cl, s) && SenderInv(j, cl, s) && ReaderInv(j, s)
    requires s' == s.(hops := s'.hops) && UpGrows(s.hops[0], s'.hops[0])
    ensures ProducerInv(j, lim, cl, s') && SenderInv(j, cl, s') && ReaderInv(j, s')
  {
    ReaderFrame(j, s, s');
    hide ReaderInv, FrameAt, LocalAt, HiddenInto, LocalAccepts;
  }

  /** The shape of a hop step, as the lemmas below need it. */
  ghost predicate HopStep(j: Job, cl: Cluster, s: State, s': State, h: nat)
    requires ValidJob(j) && |cl.hops| == |j.hops| == |s.hops| && h < |s.hops|
  {
    && |s'.hops| == |s.hops|
    && s' == s.(hops := s'.hops)
    && (forall k :: 0 <= k < |s.hops| && k != h && k != h + 1 ==> s'.hops[k] == s.hops[k])
    && UpGrows(s.hops[h], s'.hops[h])
    && CountsInv(s'.hops[h])
    && ContentInv(j, cl, h, Sound(s, h), s'.hops[h])
    && (h + 1 < |s.hops| ==>
          && PairInv(j, cl, h, Sound(s, h), s'.hops[h], s'.hops[h + 1])
          && NextTouched(j, cl, h, Sound(s, h), s.hops[h], s.hops[h + 1], s'.hops[h + 1]))
    && (h + 1 == |s.hops| ==> LastInv(j, cl, Sound(s, h), s'.hops[h]))
  }

  lemma HopActionShape(j: Job, lim: Limits, cl: Cluster, s: State, h: nat, act: Action)
    requires ValidJob(j) && |cl.hops| == |j.hops| == |s.hops| && h < |s.hops|
    requires Inv(j, lim, cl, s) && ActorOf(act) == Some(h) && Enabled(j, lim, s, act)
    ensures HopStep(j, cl, s, Apply(j, s, act), h)
  {
    hide CountsInv, ContentInv, PairInv, LastInv, ProducerInv, SenderInv, ReaderInv, UpGrows, NextTouched,
         EnabledMiddle, EnabledAny, ApplyHop, ApplyNext, Sound, ActorOf;
    assert HopInv(j, cl, s, h);
    if h + 1 < |s.hops| {
      assert HopInv(j, cl, s, h + 1);
      MiddleStep(j, lim, cl, h, Sound(s, h), s.hops[h], s.hops[h + 1], act);
      MiddleTouchesNext(j, lim, cl, h, Sound(s, h), s.hops[h], s.hops[h + 1], act);
    } else {
      LastStep(j, lim, cl, Sound(s, h), s.hops[h], act);
    }
  }

  lemma SoundShrinks(j: Job, cl: Cluster, s: State, s': State, h: nat)
    requires ValidJob(j) && |cl.hops| == |j.hops| == |s.hops| && h < |s.hops|
    requires HopStep(j, cl, s, s', h)
    ensures forall k :: 0 <= k <= |s.hops| && Sound(s', k) ==> Sound(s, k)
    ensures Sound(s', h) == Sound(s, h)
  {
    hide CountsInv, ContentInv, PairInv, LastInv, FrameAt;
    forall k | 0 <= k <= |s.hops| && Sound(s', k) ensures Sound(s, k) {
      forall i | 0 <= i < k ensures !s.hops[i].broken {
        assert !s'.hops[i].broken;
      }
    }
  }

  lemma HopStepKeepsHop(j: Job, cl: Cluster, s: State, s': State, h: nat, k: nat)
    requires ValidJob(j) && |cl.hops| == |j.hops| == |s.hops| && h < |s.hops| && k < |s.hops|
    requires HopInv(j, cl, s, k) && HopStep(j, cl, s, s', h)
    ensures HopInv(j, cl, s', k)
  {
    hide CountsInv, ContentInv, PairInv, LastInv, UpGrows, FrameAt, SameButSocket;
    SoundShrinks(j, cl, s, s', h);
    if k + 1 == h {
      hide Sound;
      LeftHopInv(j, cl, s, s', k);
    } else if k == h {
      hide Sound;
    } else if k == h + 1 {
      var b, b' := s.hops[k], s'.hops[k];
      if Sound(s', k) {
        assert !s'.hops[h].broken;
        GrownBreaks(s.hops[h], s'.hops[h]);
      }
      SocketHopInv(j, cl, s, s', k);
    } else {
      hide Sound;
      HopInvFrame(j, cl, s, s', k);
    }
  }

  lemma GrownBreaks(a: Hop, a': Hop)
    requires UpGrows(a, a') && !a'.broken
    ensures !a.broken
  {
  }

  lemma HopActionKeeps(j: Job, lim: Limits, cl: Cluster, s: State, h: nat, act: Action)
    requires ValidJob(j) && |cl.hops| == |j.hops| == |s.hops| && h < |s.hops|
    requires Inv(j, lim, cl, s) && ActorOf(act) == Some(h) && Enabled(j, lim, s, act)
    ensures Inv(j, lim, cl, Apply(j, s, act))
  {
    var s' := Apply(j, s, act);
    HopActionShape(j, lim, cl, s, h, act);
    hide Apply, Enabled, ProducerInv, SenderInv, ReaderInv, HopInv, CountsInv, ContentInv, PairInv, LastInv, UpGrows,
         NextTouched;
    SelfGrows(s.hops[0]);
    CoordinatorFrame(j, lim, cl, s, s');
    forall k | 0 <= k < |s.hops| ensures HopInv(j, cl, s', k) {
      HopStepKeepsHop(j, cl, s, s', h, k);
    }
  }

  // ---------------------------------------------------------------- a coordinator thread steps

  /** The coordinator only touches the socket of the first hop. */
  ghost predicate FirstTouched(j: Job, cl: Cluster, s: State, s': State)
    requires ValidJob(j) && |cl.hops| == |j.hops| == |s.hops|
  {
    && |s'.hops| == |s.hops|
    && (forall k :: 1 <= k < |s.hops| ==> s'.hops[k] == s.hops[k])
    && var b, b' := s.hops[0], s'.hops[0];
      && SameButSocket(b, b')
      && b'.link.down.taken == b.link.down.taken
      && b'.link.up.taken <= |b'.link.up.log|
      && (b'.link.down.log == b.link.down.log
        || b'.link.down.log == b.link.down.log + [FrameAt(j, cl, 0, |b.link.down.log|)])
  }

  lemma FirstTouchedKeepsHop(j: Job, cl: Cluster, s: State, s': State, k: nat)
    requires ValidJob(j) && |cl.hops| == |j.hops| == |s.hops| && k < |s.hops|
    requires HopInv(j, cl, s, k) && FirstTouched(j, cl, s, s')
    ensures HopInv(j, cl, s', k)
  {
    hide CountsInv, ContentInv, PairInv, LastInv, FrameAt;
    assert Sound(s', k) == Sound(s, k);
    hide Sound;
    if k == 0 {
      SocketHopInv(j, cl, s, s', k);
    } else {
      HopInvFrame(j, cl, s, s', k);
    }
  }

  /** The invariants of the three coordinator threads. */
  ghost predicate ThreadsInv(j: Job, lim: Limits, cl: Cluster, s: State)
    requires ValidJob(j) && |cl.hops| == |j.hops| == |s.hops|
  {
    ProducerInv(j, lim, cl, s) && SenderInv(j, cl, s) && ReaderInv(j, s)
  }

  /** One more chunk evaluated locally is one more row of the table. */
  lemma LocalFollowsTable(j: Job, cl: Cluster, p: Producer, ro: ResetOutcome, eo: EvalOutcome)
    requires ValidJob(j) && |cl.hops| == |j.hops|
    requires p.local == LocalAt(j, cl, p.submitted)
    ensures LocalHidden(j, p) == HiddenInto(j, cl, 0, p.submitted)
    ensures LocalSucceeds(j, p, ro, eo) ==>
      LocalAfter(j, p, ro, eo) == LocalAt(j, cl, p.submitted + 1) && LocalAccepts(j, cl, p.submitted)
  {
  }

  lemma ProducerKeepsItself(j: Job, lim: Limits, cl: Cluster, s: State, act: Action)
    requires ValidJob(j) && |cl.hops| == |j.hops| == |s.hops|
    requires ThreadsInv(j, lim, cl, s) && CountsInv(s.hops[0])
    requires EnabledCoordinator(j, lim, s, act)
    ensures ProducerInv(j, lim, cl, ProducerStep(j, s, act))
  {
    hide CleanLen, Acceptable, LocalAt, LocalAccepts, LocalHidden, LocalSucceeds, LocalAfter, HiddenInto, FrameAt,
         SenderInv, ReaderInv, FrameOf, SameButSocket;
    if act.PLocal? {
      LocalFollowsTable(j, cl, s.prod, act.ro, act.eo);
    }
  }

  /** The producer may shut the first socket down, and may queue one frame. */
  lemma ProducerShape(j: Job, s: State, act: Action)
    requires ValidJob(j) && |s.hops| == |j.hops|
    ensures ProducerStep(j, s, act).read == s.read
    ensures ProducerStep(j, s, act).hops == s.hops || ProducerStep(j, s, act).hops == CloseFirst(s).hops
    ensures var s' := ProducerStep(j, s, act);
      && s'.send.pc == s.send.pc
      && ((s'.send.queue == s.send.queue && s'.prod.submitted == s.prod.submitted)
          || (s.prod.pc.PEnqueue? && s'.prod.submitted == s.prod.submitted + 1
              && s'.send.queue == s.send.queue + [FrameOf(j, s.prod.submitted, s.prod.pc.hidden)]))
  {
    hide LocalHidden, LocalSucceeds, LocalAfter, FrameOf;
  }

  lemma ClosingFirst(j: Job, cl: Cluster, s: State, s': State)
    requires ValidJob(j) && |cl.hops| == |j.hops| == |s.hops| == |s'.hops|
    requires s'.hops == s.hops || s'.hops == CloseFirst(s).hops
    requires CountsInv(s.hops[0])
    ensures FirstTouched(j, cl, s, s')
    ensures s'.hops[0].link.down == s.hops[0].link.down && s'.hops[0].link.up == s.hops[0].link.up
  {
    hide CleanLen, FrameAt;
  }

  lemma ProducerKeepsSender(j: Job, lim: Limits, cl: Cluster, s: State, act: Action)
    requires ValidJob(j) && |cl.hops| == |j.hops| == |s.hops|
    requires ProducerInv(j, lim, cl, s) && SenderInv(j, cl, s) && CountsInv(s.hops[0])
    ensures SenderInv(j, cl, ProducerStep(j, s, act))
  {
    hide CountsInv, FirstTouched, CloseFirst, ProducerStep, FrameAt, FrameOf, SenderOk;
    var s' := ProducerStep(j, s, act);
    ProducerShape(j, s, act);
    ClosingFirst(j, cl, s, s');
    if s.prod.pc.PEnqueue? { NextFrame(j, cl, s.prod.submitted, s.prod.pc.hidden); }
    SenderKeepsOnPut(j, cl, s.send, s'.send, s.prod.submitted, |s.hops[0].link.down.log|);
  }

  /** Queueing the next chunk's frame keeps the sender's invariant, and so does raising its flags. */
  lemma SenderKeepsOnPut(j: Job, cl: Cluster, d: Sender, d': Sender, submitted: nat, sent: nat)
    requires ValidJob(j) && |cl.hops| == |j.hops|
    requires SenderOk(j, cl, d, submitted, sent) && d'.pc == d.pc
    ensures d'.queue == d.queue ==> SenderOk(j, cl, d', submitted, sent)
    ensures d'.queue == d.queue + [FrameAt(j, cl, 0, submitted)] ==> SenderOk(j, cl, d', submitted + 1, sent)
  {
    hide Queued, FrameAt;
    QueueTakes(j, cl, d.queue, submitted - |d.queue|);
  }

  lemma NextFrame(j: Job, cl: Cluster, i: nat, hidden: Hidden)
    requires ValidJob(j) && |cl.hops| == |j.hops| && hidden == HiddenInto(j, cl, 0, i)
    ensures FrameOf(j, i, hidden) == FrameAt(j, cl, 0, i)
  {
  }

  /** Queueing the next chunk's frame, and dropping the oldest one. */
  lemma QueueTakes(j: Job, cl: Cluster, q: seq<Work>, first: nat)
    requires ValidJob(j) && |cl.hops| == |j.hops| && Queued(j, cl, q, first)
    ensures Queued(j, cl, q + [FrameAt(j, cl, 0, first + |q|)], first)
    ensures q != [] ==> q[0] == FrameAt(j, cl, 0, first) && Queued(j, cl, q[1..], first + 1)
  {
    hide FrameAt;
  }

  lemma ProducerTouchesFirst(j: Job, lim: Limits, cl: Cluster, s: State, act: Action)
    requires ValidJob(j) && |cl.hops| == |j.hops| == |s.hops|
    requires ThreadsInv(j, lim, cl, s) && CountsInv(s.hops[0])
    ensures ReaderInv(j, ProducerStep(j, s, act)) && FirstTouched(j, cl, s, ProducerStep(j, s, act))
  {
    hide ProducerStep, CleanLen, Acceptable, CloseFirst, SenderInv, ProducerInv, CountsInv, FirstTouched;
    ProducerShape(j, s, act);
    ClosingFirst(j, cl, s, ProducerStep(j, s, act));
  }

  lemma ProducerKeeps(j: Job, lim: Limits, cl: Cluster, s: State, act: Action)
    requires ValidJob(j) && |cl.hops| == |j.hops| == |s.hops|
    requires ThreadsInv(j, lim, cl, s) && CountsInv(s.hops[0])
    requires EnabledCoordinator(j, lim, s, act)
    ensures ThreadsInv(j, lim, cl, ProducerStep(j, s, act)) && FirstTouched(j, cl, s, ProducerStep(j, s, act))
  {
    hide ProducerInv, SenderInv, ReaderInv, FirstTouched, ProducerStep, CountsInv, EnabledCoordinator;
    ProducerKeepsItself(j, lim, cl, s, act);
    ProducerKeepsSender(j, lim, cl, s, act);
    ProducerTouchesFirst(j, lim, cl, s, act);
  }

  lemma SenderKeepsItself(j: Job, lim: Limits, cl: Cluster, s: State, act: Action)
    requires ValidJob(j) && |cl.hops| == |j.hops| == |s.hops|
    requires SenderInv(j, cl, s) && CountsInv(s.hops[0]) && EnabledCoordinator(j, lim, s, act)
    ensures SenderInv(j, cl, SenderStep(s, act)) && FirstTouched(j, cl, s, SenderStep(s, act))
  {
    hide SenderInv, SenderStep, FirstTouched, CountsInv;
    SenderKeepsQueue(j, lim, cl, s, act);
    SenderTouchesFirst(j, lim, cl, s, act);
  }

  lemma SenderKeepsQueue(j: Job, lim: Limits, cl: Cluster, s: State, act: Action)
    requires ValidJob(j) && |cl.hops| == |j.hops| == |s.hops|
    requires SenderInv(j, cl, s) && EnabledCoordinator(j, lim, s, act)
    ensures SenderInv(j, cl, SenderStep(s, act))
  {
    hide Queued, FrameAt, CleanLen;
    QueueTakes(j, cl, s.send.queue, s.prod.submitted - |s.send.queue|);
  }

  lemma SenderTouchesFirst(j: Job, lim: Limits, cl: Cluster, s: State, act: Action)
    requires ValidJob(j) && |cl.hops| == |j.hops| == |s.hops|
    requires SenderInv(j, cl, s) && CountsInv(s.hops[0]) && EnabledCoordinator(j, lim, s, act)
    ensures FirstTouched(j, cl, s, SenderStep(s, act))
  {
    hide Queued, FrameAt, CleanLen;
    QueueTakes(j, cl, s.send.queue, s.prod.submitted - |s.send.queue|);
  }

  lemma SenderKeepsOthers(j: Job, lim: Limits, cl: Cluster, s: State, act: Action)
    requires ValidJob(j) && |cl.hops| == |j.hops| == |s.hops|
    requires ThreadsInv(j, lim, cl, s) && CountsInv(s.hops[0])
    requires EnabledCoordinator(j, lim, s, act)
    ensures ProducerInv(j, lim, cl, SenderStep(s, act)) && ReaderInv(j, SenderStep(s, act))
  {
    hide CleanLen, Acceptable, LocalAt, LocalAccepts, HiddenInto, FrameAt, Queued;
  }

  lemma SenderKeeps(j: Job, lim: Limits, cl: Cluster, s: State, act: Action)
    requires ValidJob(j) && |cl.hops| == |j.hops| == |s.hops|
    requires ThreadsInv(j, lim, cl, s) && CountsInv(s.hops[0])
    requires EnabledCoordinator(j, lim, s, act)
    ensures ThreadsInv(j, lim, cl, SenderStep(s, act)) && FirstTouched(j, cl, s, SenderStep(s, act))
  {
    hide ProducerInv, SenderInv, ReaderInv, FirstTouched, SenderStep, CountsInv, EnabledCoordinator;
    SenderKeepsItself(j, lim, cl, s, act);
    SenderKeepsOthers(j, lim, cl, s, act);
  }

  lemma ReaderKeepsItself(j: Job, lim: Limits, cl: Cluster, s: State, act: Action)
    requires ValidJob(j) && |cl.hops| == |j.hops| == |s.hops|
    requires ThreadsInv(j, lim, cl, s) && CountsInv(s.hops[0])
    requires EnabledCoordinator(j, lim, s, act)
    ensures ReaderInv(j, ReaderStep(j, s, act))
  {
    hide LocalAt, LocalAccepts, HiddenInto, FrameAt, ProducerInv, SenderInv;
  }

  lemma ReaderKeepsOthers(j: Job, lim: Limits, cl: Cluster, s: State, act: Action)
    requires ValidJob(j) && |cl.hops| == |j.hops| == |s.hops|
    requires ThreadsInv(j, lim, cl, s) && CountsInv(s.hops[0])
    requires EnabledCoordinator(j, lim, s, act)
    ensures ProducerInv(j, lim, cl, ReaderStep(j, s, act)) && SenderInv(j, cl, ReaderStep(j, s, act))
  {
    hide CleanLen, Acceptable, LocalAt, LocalAccepts, HiddenInto, FrameAt, Queued;
  }

  lemma ReaderTouchesFirst(j: Job, lim: Limits, cl: Cluster, s: State, act: Action)
    requires ValidJob(j) && |cl.hops| == |j.hops| == |s.hops|
    requires ThreadsInv(j, lim, cl, s) && CountsInv(s.hops[0])
    requires EnabledCoordinator(j, lim, s, act)
    ensures FirstTouched(j, cl, s, ReaderStep(j, s, act))
  {
    hide LocalAt, LocalAccepts, HiddenInto, FrameAt, CleanLen, Acceptable, ProducerInv, SenderInv;
  }

  lemma ReaderKeeps(j: Job, lim: Limits, cl: Cluster, s: State, act: Action)
    requires ValidJob(j) && |cl.hops| == |j.hops| == |s.hops|
    requires ThreadsInv(j, lim, cl, s) && CountsInv(s.hops[0])
    requires EnabledCoordinator(j, lim, s, act)
    ensures ThreadsInv(j, lim, cl, ReaderStep(j, s, act)) && FirstTouched(j, cl, s, ReaderStep(j, s, act))
  {
    hide ProducerInv, SenderInv, ReaderInv, FirstTouched, ReaderStep, CountsInv, EnabledCoordinator;
    ReaderKeepsItself(j, lim, cl, s, act);
    ReaderKeepsOthers(j, lim, cl, s, act);
    ReaderTouchesFirst(j, lim, cl, s, act);
  }

  lemma CoordinatorActionKeeps(j: Job, lim: Limits, cl: Cluster, s: State, act: Action)
    requires ValidJob(j) && |cl.hops| == |j.hops| == |s.hops|
    requires Inv(j, lim, cl, s) && ActorOf(act) == None && Enabled(j, lim, s, act)
    ensures Inv(j, lim, cl, Apply(j, s, act))
  {
    hide ProducerInv, SenderInv, ReaderInv, HopInv, CountsInv, ContentInv, FirstTouched, ProducerStep, SenderStep,
         ReaderStep, EnabledCoordinator;
    var s' := Apply(j, s, act);
    FirstHopCounts(j, cl, s);
    if act.SStep? || act.SWrite? || act.SWriteFails? || act.SPop? {
      SenderKeeps(j, lim, cl, s, act);
    } else if act.RRead? || act.REof? {
      ReaderKeeps(j, lim, cl, s, act);
    } else {
      ProducerKeeps(j, lim, cl, s, act);
    }
    forall k | 0 <= k < |s.hops| ensures HopInv(j, cl, s', k) {
      FirstTouchedKeepsHop(j, cl, s, s', k);
    }
  }

  lemma FirstHopCounts(j: Job, cl: Cluster, s: State)
    requires ValidJob(j) && |cl.hops| == |j.hops| == |s.hops|
    requires HopInv(j, cl, s, 0)
    ensures CountsInv(s.hops[0])
  {
  }

  // ---------------------------------------------------------------- every reachable state

  lemma InitKeeps(j: Job, lim: Limits, cl: Cluster)
    requires ValidJob(j) && ValidLimits(lim) && |cl.hops| == |j.hops| && j.count > 0
    ensures Inv(j, lim, cl, Init(cl))
  {
    var s := Init(cl);
    forall h | 0 <= h < |s.hops| ensures HopInv(j, cl, s, h) {
    }
  }

  /** The invariant holds in every state of every run, whatever faults it contains. */
  lemma {:induction false} EveryRunKeepsInv(j: Job, lim: Limits, cl: Cluster, s: State, run: seq<Action>)
    requires ValidJob(j) && |cl.hops| == |j.hops| == |s.hops|
    requires Inv(j, lim, cl, s) && ValidRun(j, lim, s, run)
    ensures Inv(j, lim, cl, After(j, s, run))
    decreases |run|
  {
    hide Inv, Enabled, Apply;
    if run != [] {
      match ActorOf(run[0]) {
        case None => CoordinatorActionKeeps(j, lim, cl, s, run[0]);
        case Some(h) =>
          ActorInRange(j, lim, s, run[0]);
          HopActionKeeps(j, lim, cl, s, h, run[0]);
      }
      EveryRunKeepsInv(j, lim, cl, Apply(j, s, run[0]), run[1..]);
    }
  }

  lemma ActorInRange(j: Job, lim: Limits, s: State, act: Action)
    requires |s.hops| == |j.hops| >= 1 && Enabled(j, lim, s, act) && ActorOf(act).Some?
    ensures ActorOf(act).value < |s.hops|
  {
  }

  // ---------------------------------------------------------------- the chain of counters

  /** Clean results only ever become fewer on their way up. */
  lemma {:induction false} CleanResultsWereEvaluated(j: Job, lim: Limits, cl: Cluster, s: State, h: nat)
    requires ValidJob(j) && |cl.hops| == |j.hops| == |s.hops| && h < |s.hops|
    requires Inv(j, lim, cl, s)
    ensures CleanLen(s.hops[0].link.up.log) <= CleanLen(s.hops[h].link.up.log) <= s.hops[h].okRun
    ensures forall p ::
      0 <= p < CleanLen(s.hops[0].link.up.log) ==> s.hops[0].link.up.log[p] == s.hops[h].link.up.log[p]
  {
    hide CleanLen, ContentInv, LastInv, ProducerInv, SenderInv, ReaderInv;
    assert HopInv(j, cl, s, h);
    if h > 0 {
      CleanResultsWereEvaluated(j, lim, cl, s, h - 1);
      assert HopInv(j, cl, s, h - 1);
    }
  }

  /** Frames sent to hop h were submitted, and evaluated by every hop before it. */
  lemma {:induction false} SentWasEvaluated(j: Job, lim: Limits, cl: Cluster, s: State, h: nat)
    requires ValidJob(j) && |cl.hops| == |j.hops| == |s.hops| && h < |s.hops|
    requires Inv(j, lim, cl, s)
    ensures s.hops[h].okRun <= s.hops[h].evals <= s.hops[h].popped <= |s.hops[h].link.down.log| <= s.prod.submitted
    ensures h > 0 ==> |s.hops[h].link.down.log| <= s.hops[h - 1].evals
  {
    hide CleanLen, ContentInv, LastInv, ProducerInv, ReaderInv, Queued;
    assert HopInv(j, cl, s, h);
    if h > 0 {
      SentWasEvaluated(j, lim, cl, s, h - 1);
      assert HopInv(j, cl, s, h - 1);
    }
  }

  /** The chain invariant in every state of every run: evaluated locally, submitted, sent, evaluated
      hop by hop, accepted; what was accepted is requests 0, 1, ... in order; and the window. */
  lemma ChainInvariant(j: Job, lim: Limits, cl: Cluster, run: seq<Action>)
    requires ValidJob(j) && ValidLimits(lim) && |cl.hops| == |j.hops| && j.count > 0
    requires ValidRun(j, lim, Init(cl), run)
    ensures var s := After(j, Init(cl), run);
      var last := |s.hops| - 1;
      && j.count >= s.prod.submitted && EvaluatedLocally(s) >= s.prod.submitted >= |s.hops[0].link.down.log|
      && (forall h :: 0 <= h <= last ==> |s.hops[h].link.down.log| >= s.hops[h].evals >= s.hops[h].okRun)
      && (forall h :: 0 < h <= last ==> s.hops[h - 1].evals >= |s.hops[h].link.down.log|)
      && (forall h :: 0 <= h <= last ==> s.hops[h].okRun >= s.read.accepted)
      && s.prod.submitted <= s.read.accepted + lim.window
      && |s.hops[0].link.up.log| >= s.read.accepted
      && (forall p :: 0 <= p < s.read.accepted ==>
            var r := s.hops[0].link.up.log[p];
            && !r.failed && r.request == j.firstRequest + p && r.hash == HashAt(j, p + 1)
            && (r.payload.Ack? ==> p + 1 < j.count) && (r.payload.HiddenOf? ==> !j.lastHasOutput))
  {
    hide Inv, ValidRun, After, HopInv, SenderInv;
    var s := After(j, Init(cl), run);
    InitKeeps(j, lim, cl);
    EveryRunKeepsInv(j, lim, cl, Init(cl), run);
    ThreadsOf(j, lim, cl, s);
    forall h | 0 <= h < |s.hops|
      ensures |s.hops[h].link.down.log| >= s.hops[h].evals >= s.hops[h].okRun >= s.read.accepted
      ensures h > 0 ==> s.hops[h - 1].evals >= |s.hops[h].link.down.log|
    {
      SentWasEvaluated(j, lim, cl, s, h);
      CleanResultsWereEvaluated(j, lim, cl, s, h);
    }
    SentWasEvaluated(j, lim, cl, s, 0);
  }

  lemma ThreadsOf(j: Job, lim: Limits, cl: Cluster, s: State)
    requires ValidJob(j) && |cl.hops| == |j.hops| == |s.hops|
    requires Inv(j, lim, cl, s)
    ensures ProducerInv(j, lim, cl, s) && SenderInv(j, cl, s) && ReaderInv(j, s)
  {
    hide ProducerInv, SenderInv, ReaderInv, HopInv;
  }

  // ---------------------------------------------------------------- success

  /** Everything a successful run leaves behind, in terms of the plain loop's table. */
  ghost predicate EndedAsTable(j: Job, cl: Cluster, s: State)
    requires ValidJob(j) && |cl.hops| == |j.hops| == |s.hops| && j.count > 0
  {
    && s.prod.local == LocalAt(j, cl, j.count)
    && (forall h :: 0 <= h < |s.hops| ==> s.hops[h].session == HopAt(j, cl, h, j.count))
    && s.read.final == Some(PayloadAt(j, cl, j.count - 1))
    && (forall i :: 0 <= i < j.count ==> LocalAccepts(j, cl, i))
    && (forall h, i :: 0 <= h < |s.hops| && 0 <= i < j.count ==> Accepts(j, cl, h, i))
  }

  /** When the call succeeds every hop has evaluated exactly the submitted chunks, and none has broken. */
  lemma SuccessfulHop(j: Job, lim: Limits, cl: Cluster, s: State, h: nat)
    requires ValidJob(j) && |cl.hops| == |j.hops| == |s.hops| && h < |s.hops|
    requires Inv(j, lim, cl, s) && Succeeded(s)
    ensures s.hops[h].okRun == s.hops[h].popped == |s.hops[h].link.down.log| == j.count && !s.hops[h].broken
  {
    hide Inv, HopInv, SenderInv;
    ThreadsOf(j, lim, cl, s);
    SentWasEvaluated(j, lim, cl, s, h);
    CleanResultsWereEvaluated(j, lim, cl, s, h);
    if h + 1 < |s.hops| {
      SentWasEvaluated(j, lim, cl, s, h + 1);
      CleanResultsWereEvaluated(j, lim, cl, s, h + 1);
    }
    UnbrokenWhenAllRan(j, lim, cl, s, h);
  }

  lemma UnbrokenWhenAllRan(j: Job, lim: Limits, cl: Cluster, s: State, h: nat)
    requires ValidJob(j) && |cl.hops| == |j.hops| == |s.hops| && h < |s.hops|
    requires Inv(j, lim, cl, s)
    requires s.hops[h].okRun == s.hops[h].popped
    requires h + 1 < |s.hops| ==> |s.hops[h + 1].link.down.log| >= s.hops[h].popped
    ensures !s.hops[h].broken
  {
    hide CleanLen, ContentInv, ProducerInv, SenderInv, ReaderInv, RelayInv, CountsInv;
    assert HopInv(j, cl, s, h);
  }

  lemma SuccessfulContent(j: Job, lim: Limits, cl: Cluster, s: State, h: nat)
    requires ValidJob(j) && |cl.hops| == |j.hops| == |s.hops| && h < |s.hops|
    requires Inv(j, lim, cl, s)
    requires forall k :: 0 <= k < |s.hops| ==> !s.hops[k].broken && s.hops[k].popped == j.count
    ensures s.hops[h].session == HopAt(j, cl, h, j.count)
    ensures forall i :: 0 <= i < j.count ==> Accepts(j, cl, h, i)
    ensures h + 1 == |s.hops| ==> forall p ::
      0 <= p < |s.hops[h].link.up.log| ==> s.hops[h].link.up.log[p] == ResultAt(j, cl, p)
  {
    hide CleanLen, CountsInv, PairInv, ProducerInv, SenderInv, ReaderInv, HopAt, Accepts, ResultAt;
    assert HopInv(j, cl, s, h);
    assert Sound(s, h);
  }

  lemma SuccessFollowsTable(j: Job, lim: Limits, cl: Cluster, s: State)
    requires ValidJob(j) && |cl.hops| == |j.hops| == |s.hops| && j.count > 0
    requires Inv(j, lim, cl, s) && Succeeded(s)
    ensures EndedAsTable(j, cl, s)
  {
    hide Inv, HopInv, SenderInv, HopAt, Accepts, LocalAccepts, LocalAt, PayloadAt, CleanLen;
    var last := |s.hops| - 1;
    ThreadsOf(j, lim, cl, s);
    forall h | 0 <= h < |s.hops| ensures !s.hops[h].broken && s.hops[h].popped == j.count {
      SuccessfulHop(j, lim, cl, s, h);
    }
    forall h | 0 <= h < |s.hops| ensures s.hops[h].session == HopAt(j, cl, h, j.count) {
      SuccessfulContent(j, lim, cl, s, h);
    }
    forall h, i | 0 <= h < |s.hops| && 0 <= i < j.count ensures Accepts(j, cl, h, i) {
      SuccessfulContent(j, lim, cl, s, h);
    }
    SuccessfulContent(j, lim, cl, s, last);
    CleanResultsWereEvaluated(j, lim, cl, s, last);
    assert s.hops[0].link.up.log[j.count - 1] == s.hops[last].link.up.log[j.count - 1] == ResultAt(j, cl, j.count - 1);
  }

  // ---------------------------------------------------------------- the plain loop ends the same way

  /** The states of the table, after i chunks everywhere. */
  function ClusterAt(j: Job, cl: Cluster, i: nat): (r: Cluster)
    requires ValidJob(j) && |cl.hops| == |j.hops|
    ensures |r.hops| == |j.hops|
  {
    Cluster(LocalAt(j, cl, i), seq(|j.hops|, h requires 0 <= h < |j.hops| => HopAt(j, cl, h, i)))
  }

  /** The plain loop always asks for the result itself, never for an ACK. */
  function PlainFrame(j: Job, cl: Cluster, h: nat, i: nat): Work
    requires ValidJob(j) && |cl.hops| == |j.hops| && h <= |j.hops|
  {
    FrameAt(j, cl, h, i).(ackOnly := false)
  }

  function PlainPayload(j: Job, cl: Cluster, i: nat): (r: Payload)
    requires ValidJob(j) && |cl.hops| == |j.hops|
    ensures !r.Ack?
  {
    LastPayload(j, HopReady(j, cl, |j.hops| - 1, i), PlainFrame(j, cl, |j.hops| - 1, i))
  }

  /** Asking for an ACK instead of a result changes nothing else. */
  lemma AckChangesNothing(j: Job, cl: Cluster, h: nat, i: nat)
    requires ValidJob(j) && |cl.hops| == |j.hops| && h < |j.hops| && Accepts(j, cl, h, i)
    ensures var w, e, ws := PlainFrame(j, cl, h, i), j.hops[h], HopFound(j, cl, h, i);
      && Evaluates(e, ws, w, ResetWorks, EvalWorks)
      && RunWork(e, ws, w, ResetWorks, EvalWorks) == HopAt(j, cl, h, i + 1)
      && Prepare(e, ws, w).engine == HopReady(j, cl, h, i)
      && (h + 1 < |j.hops| ==> Forwarded(j, e, HopReady(j, cl, h, i), w) == PlainFrame(j, cl, h + 1, i))
  {
    hide HashSpan, HashPrefix, SessionRun;
    TakeFollowsTable(j, cl, h, FrameAt(j, cl, h, i), HopFound(j, cl, h, i), i, ResetWorks, EvalWorks);
  }

  lemma {:induction false} PlainPasses(j: Job, cl: Cluster, hops: seq<WorkerSession>, h: nat, i: nat)
    requires ValidJob(j) && |cl.hops| == |j.hops| == |hops| && h < |j.hops|
    requires forall k :: h <= k < |j.hops| ==> Accepts(j, cl, k, i) && hops[k] == HopAt(j, cl, k, i)
    requires forall k :: 0 <= k < h ==> hops[k] == HopAt(j, cl, k, i + 1)
    ensures PassThrough(j, hops, h, i, PlainFrame(j, cl, h, i))
      == Some((ClusterAt(j, cl, i + 1).hops, PlainPayload(j, cl, i)))
    decreases |j.hops| - h
  {
    hide Evaluates, RunWork, SessionRun, Prepare, Forwarded, HopAt, HopReady, LastPayload, PlainFrame, Accepts;
    AckChangesNothing(j, cl, h, i);
    var hops' := hops[h := HopAt(j, cl, h, i + 1)];
    if h + 1 < |j.hops| {
      PlainPasses(j, cl, hops', h + 1, i);
    } else {
      assert hops' == ClusterAt(j, cl, i + 1).hops;
    }
  }

  /** The coordinator's own timeline is the prompt. */
  lemma {:induction false} LocalTimeline(j: Job, cl: Cluster, i: nat)
    requires ValidJob(j) && |cl.hops| == |j.hops|
    requires !j.reset ==> cl.local.tokens == j.prompt[..j.start]
    ensures i > 0 || !j.reset ==> LocalAt(j, cl, i).tokens == j.prompt[..ChunkStart(j, i)]
  {
    if i > 0 {
      LocalTimeline(j, cl, i - 1);
      ChunkExtendsPrompt(j, i - 1);
    }
  }

  lemma PlainSpan(j: Job, cl: Cluster, i: nat)
    requires ValidJob(j) && Precomputed(j) && |cl.hops| == |j.hops| && i < j.count
    requires !j.reset ==> cl.local.tokens == j.prompt[..j.start]
    requires LocalAccepts(j, cl, i) && forall h :: 0 <= h < |j.hops| ==> Accepts(j, cl, h, i)
    ensures EvalSpan(j, ClusterAt(j, cl, i), i)
         == Some((ClusterAt(j, cl, i + 1), FinalLogits(j, PlainPayload(j, cl, i), |Chunk(j, i)|)))
  {
    hide HopAt, Accepts, PassThrough, FinalLogits, PlainPayload, SpanPrefix, SpanFrame, PlainFrame;
    PlainPrefix(j, cl, i);
    PlainPasses(j, cl, ClusterAt(j, cl, i).hops, 0, i);
  }

  /** The plain loop hashes its own timeline and finds the precomputed hashes. */
  lemma PlainPrefix(j: Job, cl: Cluster, i: nat)
    requires ValidJob(j) && Precomputed(j) && |cl.hops| == |j.hops| && i < j.count
    requires !j.reset ==> cl.local.tokens == j.prompt[..j.start]
    ensures SpanPrefix(j, LocalAt(j, cl, i), i) == Some(HashAt(j, i))
    ensures SpanFrame(j, LocalReady(j, cl, i), HashAt(j, i), i) == PlainFrame(j, cl, 0, i)
  {
    hide HashSpan, HashPrefix, LocalAt, LocalReady, ChunkStart, Chunk, SpanFrame, PlainFrame;
    ChunkExtendsPrompt(j, i);
    assert HashAt(j, i) == HashBefore(j, i) && HashAt(j, i + 1) == HashBefore(j, i + 1);
    SameFrame(j, cl, i);
    if j.reset && i == 0 {
      EmptyPrefix();
      StartIsEmpty(j);
    } else {
      LocalTimeline(j, cl, i);
      WholePrefix(j.prompt[..ChunkStart(j, i)]);
    }
  }

  lemma SameFrame(j: Job, cl: Cluster, i: nat)
    requires ValidJob(j) && |cl.hops| == |j.hops|
    requires HashSpan(HashAt(j, i), Chunk(j, i)) == HashAt(j, i + 1)
    ensures SpanFrame(j, LocalReady(j, cl, i), HashAt(j, i), i) == PlainFrame(j, cl, 0, i)
  {
    hide HashSpan, LocalReady, ChunkStart, Chunk, HashAt;
    assert FrameAt(j, cl, 0, i) == FrameOf(j, i, HiddenInto(j, cl, 0, i));
    assert HiddenInto(j, cl, 0, i)
        == j.local.hiddenOut(LocalReady(j, cl, i).kv, Chunk(j, i), ChunkStart(j, i), FromTokens);
  }

  lemma WholePrefix(s: seq<int>)
    ensures s[..|s|] == s
  {
  }

  lemma StartIsEmpty(j: Job)
    requires ValidJob(j) && j.reset
    ensures j.prompt[..ChunkStart(j, 0)] == []
  {
  }

  lemma {:induction false} PlainSpans(j: Job, cl: Cluster, i: nat, logits: Logits)
    requires ValidJob(j) && Precomputed(j) && |cl.hops| == |j.hops| && i < j.count
    requires !j.reset ==> cl.local.tokens == j.prompt[..j.start]
    requires forall k :: i <= k < j.count ==> LocalAccepts(j, cl, k)
    requires forall h, k :: 0 <= h < |j.hops| && i <= k < j.count ==> Accepts(j, cl, h, k)
    ensures EvalSpans(j, ClusterAt(j, cl, i), i, logits)
         == Some((ClusterAt(j, cl, j.count), FinalLogits(j, PlainPayload(j, cl, j.count - 1), |Chunk(j, j.count - 1)|)))
    decreases j.count - i
  {
    hide EvalSpan, FinalLogits, PlainPayload, ClusterAt, Accepts, LocalAccepts;
    PlainSpan(j, cl, i);
    if i + 1 < j.count {
      PlainSpans(j, cl, i + 1, FinalLogits(j, PlainPayload(j, cl, i), |Chunk(j, i)|));
    }
  }

  /** What a finished run left in the sessions of the coordinator and the workers. */
  function ClusterOf(s: State): Cluster {
    Cluster(s.prod.local, seq(|s.hops|, h requires 0 <= h < |s.hops| => s.hops[h].session))
  }

  /** Pipelining preserves meaning.  Whatever the interleaving and whatever the faults, a pipelined
      prefill that reports success leaves every session, and returns the logits, exactly as the plain
      chunk-by-chunk loop does from the same cluster. */
  lemma PipeliningPreservesMeaning(j: Job, lim: Limits, cl: Cluster, run: seq<Action>, logits: Logits)
    requires ValidJob(j) && Precomputed(j) && ValidLimits(lim) && |cl.hops| == |j.hops|
    requires !j.reset ==> cl.local.tokens == j.prompt[..j.start]
    requires ValidRun(j, lim, Init(cl), run) && Succeeded(After(j, Init(cl), run))
    ensures var s := After(j, Init(cl), run);
      && s.read.final.Some? && !s.read.final.value.Ack?
      && EvalSpans(j, cl, 0, logits)
           == Some((ClusterOf(s), FinalLogits(j, s.read.final.value, |Chunk(j, j.count - 1)|)))
  {
    hide Inv, ValidRun, After, Succeeded, Accepts, LocalAccepts, EvalSpans, HopAt, FinalLogits;
    var s := After(j, Init(cl), run);
    ChunksCover(j, 0);
    InitKeeps(j, lim, cl);
    EveryRunKeepsInv(j, lim, cl, Init(cl), run);
    SuccessFollowsTable(j, lim, cl, s);
    TableStart(j, cl);
    PlainSpans(j, cl, 0, logits);
    assert ClusterOf(s).hops == ClusterAt(j, cl, j.count).hops;
    assert PlainPayload(j, cl, j.count - 1) == PayloadAt(j, cl, j.count - 1);
  }

  lemma TableStart(j: Job, cl: Cluster)
    requires ValidJob(j) && |cl.hops| == |j.hops|
    ensures ClusterAt(j, cl, 0) == cl
  {
    assert ClusterAt(j, cl, 0).hops == cl.hops;
  }
}
