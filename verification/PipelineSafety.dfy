/** What every run of the pipelined prefill keeps, faults included, and what success implies. */
module PipelineSafety {
  import opened Wire
  import opened TokenHash
  import opened Engine
  import opened WorkerSessions
  import opened Prefill
  import opened Pipeline

  // ---------------------------------------------------------------- result logs

  /** How many results come before the first failed one. */
  function CleanLen(log: seq<Result>): (n: nat)
    ensures n <= |log|
    ensures forall p :: 0 <= p < n ==> !log[p].failed
    ensures n < |log| ==> log[n].failed
  {
    if log == [] || log[0].failed then 0
    else
      var rest := CleanLen(log[1..]);
      assert forall p :: 1 <= p < rest + 1 ==> log[p] == log[1..][p - 1];
      1 + rest
  }

  predicate Tainted(log: seq<Result>) {
    CleanLen(log) < |log|
  }

  /** Appending only moves the first failure when there was none. */
  lemma CleanLenAppend(log: seq<Result>, r: Result)
    ensures CleanLen(log + [r]) == if Tainted(log) || r.failed then CleanLen(log) else |log| + 1
  {
    var n, m := CleanLen(log), CleanLen(log + [r]);
    assert forall p :: 0 <= p < |log| ==> (log + [r])[p] == log[p];
    if n < |log| {
      assert (log + [r])[n].failed;
    } else {
      assert (log + [r])[|log|] == r;
    }
  }

  // ---------------------------------------------------------------- the table, as the hops accept it

  /** The frame check of hop h on chunk i, in the state the plain loop would have. */
  predicate Accepts(j: Job, cl: Cluster, h: nat, i: nat)
    requires ValidJob(j) && |cl.hops| == |j.hops| && h < |j.hops|
  {
    Evaluates(j.hops[h], HopFound(j, cl, h, i), FrameAt(j, cl, h, i), ResetWorks, EvalWorks)
  }

  predicate LocalAccepts(j: Job, cl: Cluster, i: nat)
    requires ValidJob(j)
  {
    TimelineAdmits(LocalReady(j, cl, i), ChunkStart(j, i))
  }

  function ResultAt(j: Job, cl: Cluster, i: nat): Result
    requires ValidJob(j) && |cl.hops| == |j.hops|
  {
    Result(j.firstRequest + i, false, HashAt(j, i + 1), PayloadAt(j, cl, i))
  }

  // ---------------------------------------------------------------- the invariant

  function Forwarding(a: Hop): nat {
    if a.ev.EvForward? || a.ev.EvSending? then 1 else 0
  }

  function Answering(a: Hop): nat {
    if a.ev.EvReply? then 1 else 0
  }

  function Holding(a: Hop): nat {
    if a.rx.RxHold? then 1 else 0
  }

  /** Queues and counters of one hop. */
  ghost predicate CountsInv(a: Hop) {
    && a.link.down.taken <= |a.link.down.log|
    && a.link.up.taken <= |a.link.up.log|
    && a.popped + |a.jobs| + Holding(a) <= a.link.down.taken
    && (!a.jobsClosed ==> a.popped + |a.jobs| + Holding(a) == a.link.down.taken)
    && (forall k :: 0 <= k < |a.jobs| ==> a.jobs[k] == a.link.down.log[a.popped + k])
    && (a.rx.RxHold? ==> a.rx.w == a.link.down.log[a.link.down.taken - 1])
    && a.okRun <= a.evals <= a.popped
    && (a.okRun < a.popped ==> a.broken)
    && (a.okRun < a.popped ==> Tainted(a.link.up.log) || a.ev.EvDone? || (a.ev.EvReply? && a.ev.r.failed))
    && CleanLen(a.link.up.log) <= a.okRun
  }

  /** As long as nothing before a hop broke, it receives exactly the frames of the plain loop;
      as long as it has not broken either, it is in the state of the plain loop. */
  ghost predicate ContentInv(j: Job, cl: Cluster, h: nat, sound: bool, a: Hop)
    requires ValidJob(j) && |cl.hops| == |j.hops| && h < |j.hops|
  {
    sound ==>
      && (forall p :: 0 <= p < |a.link.down.log| ==> a.link.down.log[p] == FrameAt(j, cl, h, p))
      && (!a.broken ==>
            && a.session == HopAt(j, cl, h, a.popped)
            && forall i :: 0 <= i < a.popped ==> Accepts(j, cl, h, i))
  }

  /** Between a hop and the next one: what was forwarded, and how results line up. */
  ghost predicate PairInv(j: Job, cl: Cluster, h: nat, sound: bool, a: Hop, b: Hop)
    requires ValidJob(j) && |cl.hops| == |j.hops| && h + 1 < |j.hops|
  {
    var up, next := a.link.up.log, b.link.up;
    && |b.link.down.log| + Forwarding(a) <= a.evals
    && (Tainted(up) || |b.link.down.log| + Forwarding(a) <= a.okRun)
    && (a.broken ==> a.okRun < a.popped || |b.link.down.log| + Forwarding(a) < a.popped)
    && (!a.broken ==> |b.link.down.log| + Forwarding(a) == a.popped)
    && (a.ev.EvReply? ==> a.ev.r.failed)
    && (sound && !a.broken && a.ev.EvForward? ==> a.ev.w == FrameAt(j, cl, h + 1, |b.link.down.log|))
    && (sound && !a.broken && a.ev.EvSending? ==> a.ev.w == FrameAt(j, cl, h + 1, |b.link.down.log|))
    && RelayInv(a.fwd.relay, up, next.log, next.taken)
  }

  /** The relay passes results on unchanged and in order; what it makes up itself is failed. */
  ghost predicate RelayInv(relay: RelayState, up: seq<Result>, next: seq<Result>, taken: nat) {
    && taken <= |next|
    && CleanLen(up) <= CleanLen(next)
    && (forall p :: 0 <= p < CleanLen(up) ==> up[p] == next[p])
    && (relay.RlHold? && !relay.r.failed ==> taken > 0 && relay.r == next[taken - 1])
    && (!Tainted(up) && relay.RlRun? ==> taken == |up| && taken <= CleanLen(next))
    && (!Tainted(up) && relay.RlHold? && !relay.r.failed ==> taken == |up| + 1 && taken <= CleanLen(next))
  }

  ghost predicate LastInv(j: Job, cl: Cluster, sound: bool, a: Hop)
    requires ValidJob(j) && |cl.hops| == |j.hops|
  {
    var up := a.link.up.log;
    && !a.ev.EvForward? && !a.ev.EvSending?
    && (a.ev.EvReply? && !a.ev.r.failed && !Tainted(up) ==> |up| < a.okRun)
    && (a.broken ==> a.okRun < a.popped)
    && (sound && !a.broken ==>
          && (forall p :: 0 <= p < |up| ==> up[p] == ResultAt(j, cl, p))
          && (a.ev.EvReply? ==> a.popped == |up| + 1 && a.ev.r == ResultAt(j, cl, |up|))
          && (a.ev.EvIdle? ==> a.popped == |up|))
  }

  function Wrote(d: Sender): nat {
    if d.pc.SWrote? then 1 else 0
  }

  function EvaluatedLocally(s: State): nat {
    s.prod.submitted + if s.prod.pc.PEnqueue? then 1 else 0
  }

  ghost predicate ProducerInv(j: Job, lim: Limits, cl: Cluster, s: State)
    requires ValidJob(j) && |cl.hops| == |j.hops|
  {
    var p := s.prod;
    && p.submitted <= j.count
    && (p.pc.PAcquire? || p.pc.PEval? || p.pc.PEnqueue?
      ==> p.submitted < j.count && p.submitted < s.read.accepted + lim.window)
    && p.submitted <= s.read.accepted + lim.window
    && (p.pc.PEval? || p.pc.PEnqueue? ==> |s.send.queue| < lim.slots)
    && |s.send.queue| <= lim.slots
    && (p.failed ==> p.pc.PJoin? || p.pc.PDrain? || p.pc.PDone?)
    && (!p.failed && (p.pc.PJoin? || p.pc.PDrain? || p.pc.PDone?) ==> p.submitted == j.count)
    && (!p.failed ==>
          && p.local == LocalAt(j, cl, EvaluatedLocally(s))
          && forall i :: 0 <= i < EvaluatedLocally(s) ==> LocalAccepts(j, cl, i))
    && (p.pc.PEnqueue? ==> p.pc.hidden == HiddenInto(j, cl, 0, p.submitted))
  }

  ghost predicate SenderInv(j: Job, cl: Cluster, s: State)
    requires ValidJob(j) && |cl.hops| == |j.hops| == |s.hops|
  {
    SenderOk(j, cl, s.send, s.prod.submitted, |s.hops[0].link.down.log|)
  }

  /** What was submitted was sent or is queued, in order; the frame just written is still queued. */
  ghost predicate SenderOk(j: Job, cl: Cluster, d: Sender, submitted: nat, sent: nat)
    requires ValidJob(j) && |cl.hops| == |j.hops|
  {
    && sent + |d.queue| == submitted + Wrote(d)
    && (d.pc.SBusy? || d.pc.SWrote? ==> d.queue != [])
    && |d.queue| <= submitted
    && Queued(j, cl, d.queue, submitted - |d.queue|)
  }

  /** The sender's queue holds the frames of consecutive chunks. */
  ghost predicate Queued(j: Job, cl: Cluster, q: seq<Work>, first: nat)
    requires ValidJob(j) && |cl.hops| == |j.hops|
  {
    forall k :: 0 <= k < |q| ==> q[k] == FrameAt(j, cl, 0, first + k)
  }

  ghost predicate ReaderInv(j: Job, s: State)
    requires |s.hops| >= 1
  {
    var up, d := s.hops[0].link.up, s.read;
    && d.accepted <= j.count
    && d.accepted <= CleanLen(up.log)
    && (!d.done ==> !d.failed && d.accepted < j.count && d.accepted == up.taken)
    && (d.done && !d.failed ==> d.accepted == j.count && j.count > 0 && d.final == Some(up.log[j.count - 1].payload))
    && forall p :: 0 <= p < d.accepted ==> Acceptable(j, p, up.log[p])
  }

  /** Nothing before hop h ever broke. */
  ghost predicate Sound(s: State, h: nat)
    requires h <= |s.hops|
  {
    forall k :: 0 <= k < h ==> !s.hops[k].broken
  }

  ghost predicate HopInv(j: Job, cl: Cluster, s: State, h: nat)
    requires ValidJob(j) && |cl.hops| == |j.hops| == |s.hops| && h < |s.hops|
  {
    && CountsInv(s.hops[h])
    && ContentInv(j, cl, h, Sound(s, h), s.hops[h])
    && (h + 1 < |s.hops| ==> PairInv(j, cl, h, Sound(s, h), s.hops[h], s.hops[h + 1]))
    && (h + 1 == |s.hops| ==> LastInv(j, cl, Sound(s, h), s.hops[h]))
  }

  ghost predicate Inv(j: Job, lim: Limits, cl: Cluster, s: State)
    requires ValidJob(j) && |cl.hops| == |j.hops| == |s.hops|
  {
    && ProducerInv(j, lim, cl, s)
    && SenderInv(j, cl, s)
    && ReaderInv(j, s)
    && forall h :: 0 <= h < |s.hops| ==> HopInv(j, cl, s, h)
  }

  // ---------------------------------------------------------------- one hop: its own state

  /** What a hop's own step may do to the log its upstream reads. */
  ghost predicate UpGrows(a: Hop, a': Hop) {
    && a'.link.down.log == a.link.down.log
    && a'.link.up.taken == a.link.up.taken
    && (a'.link.up.log == a.link.up.log || exists r :: a'.link.up.log == a.link.up.log + [r])
    && (a.broken ==> a'.broken)
  }

  predicate AnswerStep(a: Hop, act: Action) {
    || (act.EvExit? && a.ev.EvIdle?)
    || ((act.EvAnswer? || act.EvAnswerFails?) && a.ev.EvReply?)
    || (act.Teardown? && a.ev.EvDone?)
    || act.Fault?
  }

  predicate ForwardStep(a: Hop, act: Action) {
    || ((act.EvTrack? || act.EvNoRoute?) && a.ev.EvForward?)
    || ((act.EvWrite? || act.EvWriteFails?) && a.ev.EvSending?)
  }

  predicate RelayStep(a: Hop, b: Hop, act: Action) {
    || (act.RlRead? && a.fwd.relay.RlRun? && b.link.up.HasNext())
    || (act.RlEof? && a.fwd.relay.RlRun?)
    || ((act.RlWrite? || act.RlWriteFails?) && a.fwd.relay.RlHold?)
  }

  /** A step that takes no job keeps what is known about content. */
  lemma ContentFrame(j: Job, cl: Cluster, h: nat, sound: bool, sound': bool, a: Hop, a': Hop)
    requires ValidJob(j) && |cl.hops| == |j.hops| && h < |j.hops|
    requires ContentInv(j, cl, h, sound, a)
    requires a'.link.down.log == a.link.down.log && a'.session == a.session && a'.popped == a.popped
    requires a.broken ==> a'.broken
    requires sound' ==> sound
    ensures ContentInv(j, cl, h, sound', a')
  {
  }

  lemma RxKeeps(lim: Limits, a: Hop, act: Action)
    requires CountsInv(a) && EnabledAny(lim, a, act)
    requires act.RxRead? || act.RxPut? || act.RxEof?
    ensures CountsInv(RxEffect(a, act)) && UpGrows(a, RxEffect(a, act))
  {
    hide CleanLen;
  }

  lemma AnswerKeeps(a: Hop, act: Action)
    requires CountsInv(a) && AnswerStep(a, act)
    requires act.EvAnswer? && !a.ev.r.failed && !Tainted(a.link.up.log) ==> |a.link.up.log| < a.okRun
    ensures CountsInv(AnswerEffect(a, act)) && UpGrows(a, AnswerEffect(a, act))
  {
    hide CleanLen;
    if act.EvAnswer? {
      CleanLenAppend(a.link.up.log, a.ev.r);
    }
  }

  lemma TakeKeeps(j: Job, h: nat, a: Hop, refuse: bool, ro: ResetOutcome, eo: EvalOutcome)
    requires h < |j.hops|
    requires CountsInv(a) && a.ev.EvIdle? && a.jobs != []
    ensures CountsInv(TakeJob(j, h, a, refuse, ro, eo)) && UpGrows(a, TakeJob(j, h, a, refuse, ro, eo))
  {
    hide CleanLen, RunWork, SessionRun, Evaluates, Prepare, LastPayload, Forwarded;
  }

  /** Recording a forwarded request, writing it, or dropping it. */
  lemma ForwardKeeps(a: Hop, act: Action)
    requires CountsInv(a) && ForwardStep(a, act)
    ensures CountsInv(ForwardEffect(a, act)) && UpGrows(a, ForwardEffect(a, act))
  {
    hide CleanLen;
  }

  /** A step that leaves the receiving side alone and at most adds to what a hop sends upstream. */
  lemma CountsFrame(a: Hop, a': Hop)
    requires CountsInv(a)
    requires a' == a.(link := a'.link, fwd := a'.fwd)
    requires a'.link.down == a.link.down && a'.link.up.taken == a.link.up.taken && |a.link.up.log| <= |a'.link.up.log|
    requires Tainted(a.link.up.log) ==> Tainted(a'.link.up.log)
    requires CleanLen(a'.link.up.log) <= a.okRun
    ensures CountsInv(a')
  {
    hide CleanLen;
  }

  /** What a relay step changes: the relay itself, and what was sent upstream. */
  lemma RelayShape(a: Hop, b: Hop, act: Action)
    requires RelayStep(a, b, act)
    ensures var a' := RelayEffect(a, b, act);
      var oldest := if a.fwd.pending == [] then 0 else a.fwd.pending[0];
      && a' == a.(link := a'.link, fwd := a'.fwd)
      && a'.link.down == a.link.down && a'.link.up.taken == a.link.up.taken
      && (a'.link.open ==> a.link.open) && (a.fwd.closed ==> a'.fwd.closed)
      && a'.link.up.log == (if act.RlWrite? then a.link.up.log + [a.fwd.relay.r] else a.link.up.log)
      && (a'.fwd.relay == RlDone
          || (act.RlWrite? && a'.fwd.relay == RlRun)
          || ((act.RlRead? || act.RlEof?) && a'.fwd.relay == RlHold(Failure(oldest), true))
          || (act.RlRead? && a'.fwd.relay == RlHold(b.link.up.Next(), false)))
  {
  }

  lemma RelayKeeps(a: Hop, b: Hop, act: Action)
    requires CountsInv(a) && RelayStep(a, b, act)
    requires act.RlWrite? ==> CleanLen(a.link.up.log + [a.fwd.relay.r]) <= a.okRun
    ensures CountsInv(RelayEffect(a, b, act))
  {
    RelayShape(a, b, act);
    UpIsClean(a);
    if act.RlWrite? {
      CleanLenAppend(a.link.up.log, a.fwd.relay.r);
    }
    hide CleanLen, CountsInv, RelayEffect;
    CountsFrame(a, RelayEffect(a, b, act));
  }

  lemma UpIsClean(a: Hop)
    requires CountsInv(a)
    ensures CleanLen(a.link.up.log) <= a.okRun
  {
  }

  lemma RelayGrows(a: Hop, b: Hop, act: Action)
    requires RelayStep(a, b, act)
    ensures UpGrows(a, RelayEffect(a, b, act))
  {
    hide RelayEffect;
    RelayShape(a, b, act);
  }

  /** What the upstream side of a hop's socket may see happen to it. */
  lemma SocketKeeps(j: Job, cl: Cluster, h: nat, sound: bool, b: Hop, b': Hop)
    requires ValidJob(j) && |cl.hops| == |j.hops| && h < |j.hops|
    requires CountsInv(b) && ContentInv(j, cl, h, sound, b)
    requires SameButSocket(b, b') && b'.link.down.taken == b.link.down.taken && b'.link.up.taken <= |b'.link.up.log|
    requires b'.link.down.log == b.link.down.log ||
      exists w :: b'.link.down.log == b.link.down.log + [w] && (sound ==> w == FrameAt(j, cl, h, |b.link.down.log|))
    ensures CountsInv(b') && ContentInv(j, cl, h, sound, b')
  {
    hide CleanLen, HopAt, FrameAt, Accepts;
  }

  /** Everything but the state of the socket and what came down it. */
  ghost predicate SameButSocket(b: Hop, b': Hop) {
    b' == b.(link := b'.link) && b'.link.up.log == b.link.up.log
  }

  // ---------------------------------------------------------------- one hop: the plain loop's table

  /** What a hop does with the frame it takes is one more step of the plain loop's table. */
  lemma TakeFollowsTable(j: Job, cl: Cluster, h: nat, w: Work, ws: WorkerSession, i: nat, ro: ResetOutcome,
                         eo: EvalOutcome)
    requires ValidJob(j) && |cl.hops| == |j.hops| && h < |j.hops|
    requires ws == HopFound(j, cl, h, i) && w == FrameAt(j, cl, h, i)
    requires Evaluates(j.hops[h], ws, w, ro, eo)
    ensures Accepts(j, cl, h, i)
    ensures RunWork(j.hops[h], ws, w, ro, eo) == HopAt(j, cl, h, i + 1)
    ensures Prepare(j.hops[h], ws, w).engine == HopReady(j, cl, h, i)
    ensures h + 1 < |j.hops| ==> Forwarded(j, j.hops[h], HopReady(j, cl, h, i), w) == FrameAt(j, cl, h + 1, i)
    ensures w.request == j.firstRequest + i && w.resultHash == HashAt(j, i + 1)
  {
    hide HashSpan, HashPrefix, SessionRun;
  }

  lemma TakeContent(j: Job, cl: Cluster, h: nat, sound: bool, a: Hop, refuse: bool, ro: ResetOutcome, eo: EvalOutcome)
    requires ValidJob(j) && |cl.hops| == |j.hops| && h < |j.hops|
    requires CountsInv(a) && ContentInv(j, cl, h, sound, a) && a.jobs != []
    ensures ContentInv(j, cl, h, sound, TakeJob(j, h, a, refuse, ro, eo))
  {
    hide RunWork, SessionRun, Evaluates, Prepare, LastPayload, Forwarded, CleanLen;
    var w := a.jobs[0];
    assert w == a.link.down.log[a.popped];
    var ws := Found(j, h, a.popped, a.session);
    if sound && !a.broken && !refuse && Evaluates(j.hops[h], ws, w, ro, eo) {
      TakeFollowsTable(j, cl, h, w, ws, a.popped, ro, eo);
    }
  }

  // ---------------------------------------------------------------- a relay between two logs

  lemma RelayLogGrows(relay: RelayState, up: seq<Result>, next: seq<Result>, taken: nat, r: Result)
    requires RelayInv(relay, up, next, taken)
    ensures RelayInv(relay, up, next + [r], taken)
  {
    CleanLenAppend(next, r);
  }

  lemma RelayFailureAdded(relay: RelayState, up: seq<Result>, next: seq<Result>, taken: nat, r: Result)
    requires RelayInv(relay, up, next, taken) && r.failed
    ensures RelayInv(relay, up + [r], next, taken)
  {
    CleanLenAppend(up, r);
  }

  lemma RelayReadsNext(relay: RelayState, up: seq<Result>, next: seq<Result>, taken: nat, request: nat)
    requires RelayInv(relay, up, next, taken)
    requires relay.RlRun? && taken < |next|
    ensures RelayInv(RlHold(next[taken], false), up, next, taken + 1)
    ensures RelayInv(RlHold(Failure(request), true), up, next, taken + 1)
    ensures RelayInv(RlDone, up, next, taken + 1)
  {
  }

  lemma RelayStops(relay: RelayState, up: seq<Result>, next: seq<Result>, taken: nat)
    requires RelayInv(relay, up, next, taken)
    ensures RelayInv(RlDone, up, next, taken)
    ensures forall request :: RelayInv(RlHold(Failure(request), true), up, next, taken)
  {
  }

  lemma RelayPasses(up: seq<Result>, next: seq<Result>, taken: nat, r: Result, thenExit: bool)
    requires RelayInv(RlHold(r, thenExit), up, next, taken)
    ensures RelayInv(RlRun, up + [r], next, taken) && RelayInv(RlDone, up + [r], next, taken)
    ensures Tainted(up) || r.failed || CleanLen(up + [r]) <= CleanLen(next)
  {
    CleanLenAppend(up, r);
  }

  // ---------------------------------------------------------------- one hop and the next

  lemma RxPair(j: Job, lim: Limits, cl: Cluster, h: nat, sound: bool, a: Hop, b: Hop, act: Action)
    requires ValidJob(j) && |cl.hops| == |j.hops| && h + 1 < |j.hops|
    requires PairInv(j, cl, h, sound, a, b) && EnabledAny(lim, a, act)
    requires act.RxRead? || act.RxPut? || act.RxEof?
    ensures PairInv(j, cl, h, sound, RxEffect(a, act), b)
  {
    hide CleanLen, RelayInv, FrameAt;
  }

  lemma AnswerPair(j: Job, cl: Cluster, h: nat, sound: bool, a: Hop, b: Hop, act: Action)
    requires ValidJob(j) && |cl.hops| == |j.hops| && h + 1 < |j.hops|
    requires PairInv(j, cl, h, sound, a, b) && AnswerStep(a, act)
    ensures PairInv(j, cl, h, sound, AnswerEffect(a, act), ApplyNext(a, b, act))
  {
    hide CleanLen, RelayInv, FrameAt;
    if act.EvAnswer? {
      CleanLenAppend(a.link.up.log, a.ev.r);
      RelayFailureAdded(a.fwd.relay, a.link.up.log, b.link.up.log, b.link.up.taken, a.ev.r);
    }
  }

  lemma TakePair(j: Job, cl: Cluster, h: nat, sound: bool, a: Hop, b: Hop, refuse: bool, ro: ResetOutcome,
                 eo: EvalOutcome)
    requires ValidJob(j) && |cl.hops| == |j.hops| && h + 1 < |j.hops|
    requires CountsInv(a) && ContentInv(j, cl, h, sound, a) && PairInv(j, cl, h, sound, a, b)
    requires a.ev.EvIdle? && a.jobs != []
    ensures PairInv(j, cl, h, sound, TakeJob(j, h, a, refuse, ro, eo), b)
  {
    hide RunWork, SessionRun, Evaluates, Prepare, LastPayload, Forwarded, CleanLen, RelayInv;
    var w := a.jobs[0];
    assert w == a.link.down.log[a.popped];
    var ws := Found(j, h, a.popped, a.session);
    if sound && !a.broken && !refuse && Evaluates(j.hops[h], ws, w, ro, eo) {
      TakeFollowsTable(j, cl, h, w, ws, a.popped, ro, eo);
    }
  }

  lemma ForwardPair(j: Job, cl: Cluster, h: nat, sound: bool, a: Hop, b: Hop, act: Action)
    requires ValidJob(j) && |cl.hops| == |j.hops| && h + 1 < |j.hops|
    requires CountsInv(a) && PairInv(j, cl, h, sound, a, b) && ForwardStep(a, act)
    ensures PairInv(j, cl, h, sound, ForwardEffect(a, act), ApplyNext(a, b, act))
  {
    hide CleanLen, RelayInv, FrameAt;
  }

  /** A clean result that reaches a hop's upstream log was evaluated there too. */
  lemma PassedWasEvaluated(j: Job, cl: Cluster, h: nat, sound: bool, a: Hop, b: Hop)
    requires ValidJob(j) && |cl.hops| == |j.hops| && h + 1 < |j.hops|
    requires PairInv(j, cl, h, sound, a, b) && CountsInv(a) && CountsInv(b) && a.fwd.relay.RlHold?
    ensures CleanLen(a.link.up.log + [a.fwd.relay.r]) <= a.okRun
  {
    RelayPasses(a.link.up.log, b.link.up.log, b.link.up.taken, a.fwd.relay.r, a.fwd.relay.thenExit);
    CleanLenAppend(a.link.up.log, a.fwd.relay.r);
  }

  lemma RelayInvKept(a: Hop, b: Hop, act: Action)
    requires RelayInv(a.fwd.relay, a.link.up.log, b.link.up.log, b.link.up.taken) && RelayStep(a, b, act)
    ensures var a', b' := RelayEffect(a, b, act), ApplyNext(a, b, act);
      && RelayInv(a'.fwd.relay, a'.link.up.log, b'.link.up.log, b'.link.up.taken)
      && (Tainted(a.link.up.log) ==> Tainted(a'.link.up.log))
  {
    hide CleanLen, RelayInv, RelayEffect;
    RelayShape(a, b, act);
    var up, next, taken := a.link.up.log, b.link.up.log, b.link.up.taken;
    if act.RlRead? {
      RelayReadsNext(a.fwd.relay, up, next, taken, if a.fwd.pending == [] then 0 else a.fwd.pending[0]);
    } else if act.RlWrite? {
      RelayPasses(up, next, taken, a.fwd.relay.r, a.fwd.relay.thenExit);
      CleanLenAppend(up, a.fwd.relay.r);
    }
    RelayStops(a.fwd.relay, up, next, taken);
  }

  lemma RelayPair(j: Job, cl: Cluster, h: nat, sound: bool, a: Hop, b: Hop, act: Action)
    requires ValidJob(j) && |cl.hops| == |j.hops| && h + 1 < |j.hops|
    requires PairInv(j, cl, h, sound, a, b) && RelayStep(a, b, act)
    ensures PairInv(j, cl, h, sound, RelayEffect(a, b, act), ApplyNext(a, b, act))
  {
    hide CleanLen, Tainted, FrameAt, RelayInv, RelayEffect;
    RelayShape(a, b, act);
    RelayInvKept(a, b, act);
  }

  /** The pair to the left of a hop that moved on its own. */
  lemma LeftPairFrame(j: Job, cl: Cluster, h: nat, sound: bool, z: Hop, a: Hop, a': Hop)
    requires ValidJob(j) && |cl.hops| == |j.hops| && h + 1 < |j.hops|
    requires PairInv(j, cl, h, sound, z, a) && UpGrows(a, a')
    ensures PairInv(j, cl, h, sound, z, a')
  {
    hide CleanLen, FrameAt, RelayInv;
    if a'.link.up.log != a.link.up.log {
      var r :| a'.link.up.log == a.link.up.log + [r];
      RelayLogGrows(z.fwd.relay, z.link.up.log, a.link.up.log, a.link.up.taken, r);
    }
  }

  /** The pair to the right of a hop whose socket was written, read or closed. */
  lemma RightPairFrame(j: Job, cl: Cluster, h: nat, sound: bool, sound': bool, b: Hop, b': Hop, c: Hop)
    requires ValidJob(j) && |cl.hops| == |j.hops| && h + 1 < |j.hops|
    requires PairInv(j, cl, h, sound, b, c) && SameButSocket(b, b') && (sound' ==> sound)
    ensures PairInv(j, cl, h, sound', b', c)
  {
    hide CleanLen, FrameAt, RelayInv;
  }

  // ---------------------------------------------------------------- the last hop

  lemma TakeLast(j: Job, cl: Cluster, sound: bool, a: Hop, refuse: bool, ro: ResetOutcome, eo: EvalOutcome)
    requires ValidJob(j) && |cl.hops| == |j.hops|
    requires CountsInv(a) && ContentInv(j, cl, |j.hops| - 1, sound, a) && LastInv(j, cl, sound, a)
    requires a.ev.EvIdle? && a.jobs != []
    ensures LastInv(j, cl, sound, TakeJob(j, |j.hops| - 1, a, refuse, ro, eo))
  {
    hide RunWork, SessionRun, Evaluates, Prepare, LastPayload, Forwarded, CleanLen;
    var w, h := a.jobs[0], |j.hops| - 1;
    assert w == a.link.down.log[a.popped];
    var ws := Found(j, h, a.popped, a.session);
    if sound && !a.broken && !refuse && Evaluates(j.hops[h], ws, w, ro, eo) {
      TakeFollowsTable(j, cl, h, w, ws, a.popped, ro, eo);
    }
  }

  lemma RxLast(j: Job, lim: Limits, cl: Cluster, sound: bool, a: Hop, act: Action)
    requires ValidJob(j) && |cl.hops| == |j.hops|
    requires LastInv(j, cl, sound, a) && EnabledAny(lim, a, act)
    requires act.RxRead? || act.RxPut? || act.RxEof?
    ensures LastInv(j, cl, sound, RxEffect(a, act))
  {
    hide CleanLen, ResultAt;
  }

  lemma AnswerLast(j: Job, cl: Cluster, sound: bool, a: Hop, act: Action)
    requires ValidJob(j) && |cl.hops| == |j.hops|
    requires CountsInv(a) && LastInv(j, cl, sound, a) && AnswerStep(a, act)
    ensures LastInv(j, cl, sound, AnswerEffect(a, act))
  {
    hide CleanLen, ResultAt;
    if act.EvAnswer? {
      CleanLenAppend(a.link.up.log, a.ev.r);
    }
  }

  lemma LastFrame(j: Job, cl: Cluster, sound: bool, sound': bool, b: Hop, b': Hop)
    requires ValidJob(j) && |cl.hops| == |j.hops|
    requires LastInv(j, cl, sound, b) && SameButSocket(b, b') && (sound' ==> sound)
    ensures LastInv(j, cl, sound', b')
  {
    hide CleanLen, ResultAt;
  }

  // ---------------------------------------------------------------- one step of one hop

  lemma MiddleStep(j: Job, lim: Limits, cl: Cluster, h: nat, sound: bool, a: Hop, b: Hop, act: Action)
    requires ValidJob(j) && |cl.hops| == |j.hops| && h + 1 < |j.hops|
    requires CountsInv(a) && ContentInv(j, cl, h, sound, a) && PairInv(j, cl, h, sound, a, b) && CountsInv(b)
    requires ActorOf(act) == Some(h) && EnabledMiddle(lim, a, b, act)
    ensures var a' := ApplyHop(j, h, a, Some(b), act);
      && CountsInv(a') && ContentInv(j, cl, h, sound, a') && UpGrows(a, a')
      && PairInv(j, cl, h, sound, a', ApplyNext(a, b, act))
  {
    hide CountsInv, ContentInv, PairInv, UpGrows, RxEffect, ForwardEffect, RelayEffect, AnswerEffect, TakeJob;
    if act.RxRead? || act.RxPut? || act.RxEof? {
      RxKeeps(lim, a, act);
      RxContent(j, cl, h, sound, a, act);
      RxPair(j, lim, cl, h, sound, a, b, act);
    } else if act.EvTake? {
      TakeKeeps(j, h, a, act.refuse, act.ro, act.eo);
      TakeContent(j, cl, h, sound, a, act.refuse, act.ro, act.eo);
      TakePair(j, cl, h, sound, a, b, act.refuse, act.ro, act.eo);
    } else if ForwardStep(a, act) {
      ForwardKeeps(a, act);
      ForwardContent(j, cl, h, sound, a, act);
      ForwardPair(j, cl, h, sound, a, b, act);
    } else if RelayStep(a, b, act) {
      if act.RlWrite? { PassedWasEvaluated(j, cl, h, sound, a, b); }
      RelayKeeps(a, b, act);
      RelayGrows(a, b, act);
      RelayContent(j, cl, h, sound, a, b, act);
      RelayPair(j, cl, h, sound, a, b, act);
    } else {
      assert AnswerStep(a, act);
      AnswerIsFailure(j, cl, h, sound, a, b);
      AnswerKeeps(a, act);
      AnswerContent(j, cl, h, sound, a, act);
      AnswerPair(j, cl, h, sound, a, b, act);
    }
  }

  lemma AnswerIsFailure(j: Job, cl: Cluster, h: nat, sound: bool, a: Hop, b: Hop)
    requires ValidJob(j) && |cl.hops| == |j.hops| && h + 1 < |j.hops|
    requires PairInv(j, cl, h, sound, a, b)
    ensures a.ev.EvReply? ==> a.ev.r.failed
  {
  }

  lemma RxContent(j: Job, cl: Cluster, h: nat, sound: bool, a: Hop, act: Action)
    requires ValidJob(j) && |cl.hops| == |j.hops| && h < |j.hops|
    requires ContentInv(j, cl, h, sound, a)
    ensures ContentInv(j, cl, h, sound, RxEffect(a, act))
  {
    hide ContentInv;
    ContentFrame(j, cl, h, sound, sound, a, RxEffect(a, act));
  }

  lemma ForwardContent(j: Job, cl: Cluster, h: nat, sound: bool, a: Hop, act: Action)
    requires ValidJob(j) && |cl.hops| == |j.hops| && h < |j.hops|
    requires ContentInv(j, cl, h, sound, a)
    ensures ContentInv(j, cl, h, sound, ForwardEffect(a, act))
  {
    hide ContentInv;
    ContentFrame(j, cl, h, sound, sound, a, ForwardEffect(a, act));
  }

  lemma RelayContent(j: Job, cl: Cluster, h: nat, sound: bool, a: Hop, b: Hop, act: Action)
    requires ValidJob(j) && |cl.hops| == |j.hops| && h < |j.hops|
    requires ContentInv(j, cl, h, sound, a) && RelayStep(a, b, act)
    ensures ContentInv(j, cl, h, sound, RelayEffect(a, b, act))
  {
    hide ContentInv, RelayEffect;
    RelayShape(a, b, act);
    ContentFrame(j, cl, h, sound, sound, a, RelayEffect(a, b, act));
  }

  lemma AnswerContent(j: Job, cl: Cluster, h: nat, sound: bool, a: Hop, act: Action)
    requires ValidJob(j) && |cl.hops| == |j.hops| && h < |j.hops|
    requires ContentInv(j, cl, h, sound, a)
    ensures ContentInv(j, cl, h, sound, AnswerEffect(a, act))
  {
    hide ContentInv;
    ContentFrame(j, cl, h, sound, sound, a, AnswerEffect(a, act));
  }

  lemma LastStep(j: Job, lim: Limits, cl: Cluster, sound: bool, a: Hop, act: Action)
    requires ValidJob(j) && |cl.hops| == |j.hops|
    requires CountsInv(a) && ContentInv(j, cl, |j.hops| - 1, sound, a) && LastInv(j, cl, sound, a)
    requires ActorOf(act).Some? && EnabledAny(lim, a, act)
    ensures var a' := ApplyHop(j, |j.hops| - 1, a, None, act);
      CountsInv(a') && ContentInv(j, cl, |j.hops| - 1, sound, a') && UpGrows(a, a') && LastInv(j, cl, sound, a')
  {
    hide CountsInv, ContentInv, UpGrows, RxEffect, ForwardEffect, RelayEffect, AnswerEffect, TakeJob, ResultAt;
    var h := |j.hops| - 1;
    if act.RxRead? || act.RxPut? || act.RxEof? {
      RxKeeps(lim, a, act);
      RxContent(j, cl, h, sound, a, act);
      RxLast(j, lim, cl, sound, a, act);
    } else if act.EvTake? {
      TakeKeeps(j, h, a, act.refuse, act.ro, act.eo);
      TakeContent(j, cl, h, sound, a, act.refuse, act.ro, act.eo);
      TakeLast(j, cl, sound, a, act.refuse, act.ro, act.eo);
    } else {
      assert AnswerStep(a, act);
      AnswerKeeps(a, act);
      AnswerContent(j, cl, h, sound, a, act);
      AnswerLast(j, cl, sound, a, act);
    }
  }

  // ---------------------------------------------------------------- one step of the whole system

  /** A hop far to the right of the step: nothing changes but what may be claimed about content. */
  lemma HopInvFrame(j: Job, cl: Cluster, s: State, s': State, k: nat)
    requires ValidJob(j) && |cl.hops| == |j.hops| == |s.hops| == |s'.hops| && k < |s.hops|
    requires HopInv(j, cl, s, k)
    requires s'.hops[k] == s.hops[k] && (k + 1 < |s.hops| ==> s'.hops[k + 1] == s.hops[k + 1])
    requires Sound(s', k) ==> Sound(s, k)
    ensures HopInv(j, cl, s', k)
  {
    hide CountsInv, ContentInv, PairInv, LastInv;
    var a := s.hops[k];
    ContentFrame(j, cl, k, Sound(s, k), Sound(s', k), a, a);
    if k + 1 < |s.hops| {
      RightPairFrame(j, cl, k, Sound(s, k), Sound(s', k), a, a, s.hops[k + 1]);
    } else {
      LastFrame(j, cl, Sound(s, k), Sound(s', k), a, a);
    }
  }

  /** The hop whose upstream socket was touched by the step, with its right neighbour untouched. */
  lemma SocketHopInv(j: Job, cl: Cluster, s: State, s': State, k: nat)
    requires ValidJob(j) && |cl.hops| == |j.hops| == |s.hops| == |s'.hops| && k < |s.hops|
    requires HopInv(j, cl, s, k)
    requires SameButSocket(s.hops[k], s'.hops[k]) && (k + 1 < |s.hops| ==> s'.hops[k + 1] == s.hops[k + 1])
    requires Sound(s', k) ==> Sound(s, k)
    requires s'.hops[k].link.down.taken == s.hops[k].link.down.taken
    requires s'.hops[k].link.up.taken <= |s'.hops[k].link.up.log|
    requires s'.hops[k].link.down.log == s.hops[k].link.down.log ||
      exists w :: s'.hops[k].link.down.log == s.hops[k].link.down.log + [w]
               && (Sound(s', k) ==> w == FrameAt(j, cl, k, |s.hops[k].link.down.log|))
    ensures HopInv(j, cl, s', k)
  {
    var b, b' := s.hops[k], s'.hops[k];
    hide CountsInv, ContentInv, PairInv, LastInv;
    ContentFrame(j, cl, k, Sound(s, k), Sound(s', k), b, b);
    SocketKeeps(j, cl, k, Sound(s', k), b, b');
    if k + 1 < |s.hops| {
      RightPairFrame(j, cl, k, Sound(s, k), Sound(s', k), b, b', s.hops[k + 1]);
    } else {
      LastFrame(j, cl, Sound(s, k), Sound(s', k), b, b');
    }
  }

  lemma LeftHopInv(j: Job, cl: Cluster, s: State, s': State, k: nat)
    requires ValidJob(j) && |cl.hops| == |j.hops| == |s.hops| == |s'.hops| && k + 1 < |s.hops|
    requires HopInv(j, cl, s, k)
    requires s'.hops[k] == s.hops[k] && UpGrows(s.hops[k + 1], s'.hops[k + 1])
    requires Sound(s', k) ==> Sound(s, k)
    ensures HopInv(j, cl, s', k)
  {
    hide CountsInv, ContentInv, PairInv, UpGrows;
    var a := s.hops[k];
    ContentFrame(j, cl, k, Sound(s, k), Sound(s', k), a, a);
    RightPairFrame(j, cl, k, Sound(s, k), Sound(s', k), a, a, s.hops[k + 1]);
    LeftPairFrame(j, cl, k, Sound(s', k), a, s.hops[k + 1], s'.hops[k + 1]);
  }
}
