/** The pipelined prefill as a transition system: one producer, one sender, one result reader,
    and per hop a receive loop, an evaluation thread and a relay thread, joined by bounded FIFO
    channels.  An action is one atomic step of one thread, or a fault. */
module Pipeline {
  import opened Wire
  import opened Engine
  import opened WorkerSessions
  import opened Prefill

  /** The tunable depths; the environment variables that set them only accept values from 1 up. */
  datatype Limits = Limits(slots: nat, window: nat, jobDepth: nat, pendingDepth: nat, capacity: nat)

  predicate ValidLimits(lim: Limits) {
    lim.slots >= 1 && lim.window >= 1 && lim.jobDepth >= 1 && lim.pendingDepth >= 1 && lim.capacity >= 1
  }

  /** One direction of a socket: everything ever written, and how much of it was read. */
  datatype Channel<T> = Channel(log: seq<T>, taken: nat) {
    predicate HasNext() { taken < |log| }
    function Next(): T requires HasNext() { log[taken] }
    function Read(): Channel<T> { Channel(log, taken + 1) }
    function Write(x: T): Channel<T> { Channel(log + [x], taken) }
    predicate HasRoom(capacity: nat) { |log| - taken < capacity }
  }

  /** A RESULT frame; failed frames carry only the request they answer. */
  datatype Result = Result(request: nat, failed: bool, hash: U64, payload: Payload)

  function Failure(request: nat): Result {
    Result(request, true, 0, Ack)
  }

  datatype RxState = RxRun | RxHold(w: Work) | RxDone

  /** The evaluation thread: idle, about to answer upstream, about to record a forwarded request,
      about to write it downstream, or gone. */
  datatype EvState = EvIdle | EvReply(r: Result, thenClose: bool) | EvForward(w: Work) | EvSending(w: Work) | EvDone

  datatype RelayState = RlRun | RlHold(r: Result, thenExit: bool) | RlDone

  /** The socket between a hop and its upstream neighbour. */
  datatype Link = Link(open: bool, down: Channel<Work>, up: Channel<Result>)

  /** The forwarding side of a hop: requests sent on and not answered, and the thread that relays answers. */
  datatype Forwarder = Forwarder(pending: seq<nat>, closed: bool, relay: RelayState)

  datatype Hop = Hop(
    link: Link,
    rx: RxState,
    jobs: seq<Work>,         // the prefetch queue
    jobsClosed: bool,
    ev: EvState,
    session: WorkerSession,
    fwd: Forwarder,
    popped: nat,             // history: jobs taken from the queue
    evals: nat,              // history: how many of them were evaluated
    okRun: nat,              // history: how many were evaluated before the first that was not
    broken: bool)            // history: some job was refused, failed, or could not be forwarded

  datatype ProducerState = PTop | PAcquire | PEval | PEnqueue(hidden: Hidden) | PJoin | PDrain | PDone
  datatype SenderState = SWait | SBusy | SWrote | SDone

  datatype Producer = Producer(pc: ProducerState, failed: bool, submitted: nat, local: EngineSession)
  datatype Sender = Sender(pc: SenderState, queue: seq<Work>, producerDone: bool, stop: bool, failed: bool)
  /** The reader's failure is remote when it read a worker's error answer to the request it waited for. */
  datatype Reader = Reader(accepted: nat, done: bool, failed: bool, remote: bool, final: Option<Payload>)
  datatype State = State(prod: Producer, send: Sender, read: Reader, hops: seq<Hop>)

  function InitHop(ws: WorkerSession): Hop {
    Hop(Link(true, Channel([], 0), Channel([], 0)), RxRun, [], false, EvIdle, ws, Forwarder([], false, RlRun), 0, 0,
        0, false)
  }

  function Init(cl: Cluster): State {
    State(Producer(PTop, false, 0, cl.local), Sender(SWait, [], false, false, false),
          Reader(0, false, false, false, None),
          seq(|cl.hops|, i requires 0 <= i < |cl.hops| => InitHop(cl.hops[i])))
  }

  datatype Action =
    | PWindow | PTake | PLocal(ro: ResetOutcome, eo: EvalOutcome) | PPut | PJoinSender | PJoinReader
    | SStep | SWrite | SWriteFails | SPop
    | RRead | REof
    | RxRead(h: nat) | RxPut(h: nat) | RxEof(h: nat, drain: bool)
    | EvTake(h: nat, refuse: bool, ro: ResetOutcome, eo: EvalOutcome) | EvExit(h: nat)
    | EvAnswer(h: nat) | EvAnswerFails(h: nat)
    | EvTrack(h: nat) | EvNoRoute(h: nat) | EvWrite(h: nat) | EvWriteFails(h: nat)
    | RlRead(h: nat) | RlEof(h: nat) | RlWrite(h: nat) | RlWriteFails(h: nat)
    | Teardown(h: nat)
    | Fault(h: nat)

  // ---------------------------------------------------------------- coordinator steps

  function Close(a: Hop): Hop {
    a.(link := a.link.(open := false))
  }

  function PutHop(s: State, h: nat, a: Hop): (s': State)
    requires h < |s.hops|
    ensures |s'.hops| == |s.hops|
  {
    s.(hops := s.hops[h := a])
  }

  function CloseFirst(s: State): State
    requires |s.hops| >= 1
  {
    PutHop(s, 0, Close(s.hops[0]))
  }

  /** The producer gives up: the sender is cancelled and the first socket shut down. */
  function Cancel(s: State): State
    requires |s.hops| >= 1
  {
    CloseFirst(s).(prod := s.prod.(pc := PJoin, failed := true), send := s.send.(producerDone := true, stop := true))
  }

  /** Whether the reader takes a result as the answer to its next request. */
  predicate Acceptable(j: Job, i: nat, r: Result) {
    && r.request == j.firstRequest + i
    && !r.failed
    && r.hash == HashAt(j, i + 1)
    && (r.payload.Ack? ==> i + 1 < j.count)
    && (r.payload.HiddenOf? ==> !j.lastHasOutput)
  }

  /** Whether a result is a worker's error answer to request i. */
  predicate IsRemoteError(j: Job, i: nat, r: Result) {
    r.request == j.firstRequest + i && r.failed
  }

  function ReaderFails(s: State, remote: bool): State
    requires |s.hops| >= 1
  {
    CloseFirst(s).(read := s.read.(done := true, failed := true, remote := remote))
  }

  /** The coordinator's session as chunk i finds it, after the reset that the first chunk may carry. */
  function LocalBase(j: Job, local: EngineSession, i: nat, ro: ResetOutcome): EngineSession {
    if j.reset && i == 0 then Reset(j.local, local, ro) else local
  }

  predicate LocalSucceeds(j: Job, p: Producer, ro: ResetOutcome, eo: EvalOutcome)
    requires ValidJob(j)
  {
    && (j.reset && p.submitted == 0 ==> ro.ResetWorks?)
    && EvalSucceeds(LocalBase(j, p.local, p.submitted, ro), ChunkStart(j, p.submitted), eo)
  }

  function LocalAfter(j: Job, p: Producer, ro: ResetOutcome, eo: EvalOutcome): EngineSession
    requires ValidJob(j)
  {
    var base := LocalBase(j, p.local, p.submitted, ro);
    if j.reset && p.submitted == 0 && ro.ResetFails? then base
    else Eval(j.local, base, Chunk(j, p.submitted), ChunkStart(j, p.submitted), FromTokens, eo)
  }

  function LocalHidden(j: Job, p: Producer): Hidden
    requires ValidJob(j)
  {
    j.local.hiddenOut(LocalBase(j, p.local, p.submitted, ResetWorks).kv, Chunk(j, p.submitted),
                      ChunkStart(j, p.submitted), FromTokens)
  }

  // ---------------------------------------------------------------- hop steps that only touch the hop

  /** The job queue is cancelled: what is queued is dropped. */
  function CancelJobs(a: Hop): Hop {
    a.(jobs := [], jobsClosed := true)
  }

  function RelayExits(a: Hop): Hop {
    Close(a).(fwd := a.fwd.(relay := RlDone, closed := true))
  }

  /** One job: refused before the session is reached, or run against the session as it finds it. */
  function TakeJob(j: Job, h: nat, a: Hop, refuse: bool, ro: ResetOutcome, eo: EvalOutcome): Hop
    requires h < |j.hops| && a.jobs != []
  {
    RunJob(j, h, a, Found(j, h, a.popped, a.session), refuse, ro, eo)
  }

  function RunJob(j: Job, h: nat, a: Hop, ws: WorkerSession, refuse: bool, ro: ResetOutcome, eo: EvalOutcome): Hop
    requires h < |j.hops| && a.jobs != []
  {
    var w, e := a.jobs[0], j.hops[h];
    var ok := !refuse && Evaluates(e, ws, w, ro, eo);
    var ready := Prepare(e, ws, w).engine;
    a.(jobs := a.jobs[1..],
       popped := a.popped + 1,
       evals := if ok then a.evals + 1 else a.evals,
       okRun := if ok && a.okRun == a.popped then a.okRun + 1 else a.okRun,
       broken := a.broken || !ok,
       session := if refuse then ws else RunWork(e, ws, w, ro, eo),
       ev := if !ok then EvReply(Failure(w.request), false)
             else if h + 1 == |j.hops| then
               EvReply(Result(w.request, false, w.resultHash, LastPayload(j, ready, w)), false)
             else EvForward(Forwarded(j, e, ready, w)))
  }

  /** Takes the first occurrence of a request out of the pending list. */
  function RemoveRequest(pending: seq<nat>, request: nat): seq<nat> {
    if pending == [] then []
    else if pending[0] == request then pending[1..]
    else [pending[0]] + RemoveRequest(pending[1..], request)
  }

  function DropForward(a: Hop, request: nat, thenClose: bool): Hop {
    a.(ev := EvReply(Failure(request), thenClose), broken := true)
  }

  // ---------------------------------------------------------------- enabledness

  predicate Enabled(j: Job, lim: Limits, s: State, act: Action)
    requires |s.hops| == |j.hops| >= 1
  {
    match ActorOf(act)
    case None => EnabledCoordinator(j, lim, s, act)
    case Some(h) =>
      && h < |s.hops|
      && (if h + 1 < |s.hops| then EnabledMiddle(lim, s.hops[h], s.hops[h + 1], act)
        else EnabledAny(lim, s.hops[h], act))
  }

  predicate EnabledCoordinator(j: Job, lim: Limits, s: State, act: Action)
    requires |s.hops| >= 1
  {
    var link := s.hops[0].link;
    match act
    case PWindow => s.prod.pc.PTop?
      && (s.prod.submitted == j.count || s.read.done || s.prod.submitted < s.read.accepted + lim.window)
    case PTake => s.prod.pc.PAcquire? && (s.send.stop || s.send.failed || |s.send.queue| < lim.slots)
    case PLocal(_, _) => s.prod.pc.PEval?
    case PPut => s.prod.pc.PEnqueue?
    case PJoinSender => s.prod.pc.PJoin? && s.send.pc.SDone?
    case PJoinReader => s.prod.pc.PDrain? && s.read.done
    case SStep => s.send.pc.SWait? && (s.send.stop || s.send.queue != [] || s.send.producerDone)
    case SWrite => s.send.pc.SBusy? && s.send.queue != [] && link.open && link.down.HasRoom(lim.capacity)
    case SWriteFails => s.send.pc.SBusy?
    case SPop => s.send.pc.SWrote? && s.send.queue != []
    case RRead => !s.read.done && link.up.HasNext()
    case REof => !s.read.done && !link.open
    case _ => false
  }

  /** What a hop can do without its next hop. */
  predicate EnabledAny(lim: Limits, a: Hop, act: Action) {
    match act
    case RxRead(_) => a.rx.RxRun? && a.link.down.HasNext()
    case RxPut(_) => a.rx.RxHold? && (a.jobsClosed || |a.jobs| < lim.jobDepth)
    case RxEof(_, _) => a.rx.RxRun? && !a.link.open
    case EvTake(_, _, _, _) => a.ev.EvIdle? && a.jobs != []
    case EvExit(_) => a.ev.EvIdle? && a.jobs == [] && a.jobsClosed
    case EvAnswer(_) => a.ev.EvReply? && a.link.open && a.link.up.HasRoom(lim.capacity)
    case EvAnswerFails(_) => a.ev.EvReply?
    case Teardown(_) => a.rx.RxDone? && a.ev.EvDone? && a.link.open
    case Fault(_) => a.link.open
    case _ => false
  }

  /** What a hop with a next hop can do. */
  predicate EnabledMiddle(lim: Limits, a: Hop, b: Hop, act: Action) {
    match act
    case EvTrack(_) => a.ev.EvForward? && (a.fwd.closed || |a.fwd.pending| < lim.pendingDepth)
    case EvNoRoute(_) => a.ev.EvForward?
    case EvWrite(_) => a.ev.EvSending? && b.link.open && b.link.down.HasRoom(lim.capacity)
    case EvWriteFails(_) => a.ev.EvSending?
    case RlRead(_) => a.fwd.relay.RlRun? && b.link.up.HasNext()
    case RlEof(_) => a.fwd.relay.RlRun? && !b.link.open
    case RlWrite(_) => a.fwd.relay.RlHold? && a.link.open && a.link.up.HasRoom(lim.capacity)
    case RlWriteFails(_) => a.fwd.relay.RlHold?
    case Teardown(_) => a.rx.RxDone? && a.ev.EvDone? && (a.link.open || b.link.open || !a.fwd.closed)
    case _ => EnabledAny(lim, a, act)
  }

  /** Steps the environment may force but no thread needs: dropped sockets, writes that fail on a
      live socket, and failing to reach the next worker. */
  predicate IsFault(s: State, act: Action) {
    match act
    case Fault(_) => true
    case EvNoRoute(_) => true
    case SWriteFails => |s.hops| >= 1 && s.hops[0].link.open
    case EvAnswerFails(h) => h < |s.hops| && s.hops[h].link.open
    case EvWriteFails(h) => h + 1 < |s.hops| && s.hops[h + 1].link.open
    case RlWriteFails(h) => h < |s.hops| && s.hops[h].link.open
    case _ => false
  }

  // ---------------------------------------------------------------- effect

  // The effects repeat some guards of Enabled so that they are defined on every state.

  function ProducerStep(j: Job, s: State, act: Action): (s': State)
    requires ValidJob(j) && |s.hops| == |j.hops|
    ensures |s'.hops| == |s.hops|
  {
    var p := s.prod;
    match act
    case PWindow =>
      if p.submitted == j.count then s.(prod := p.(pc := PJoin), send := s.send.(producerDone := true))
      else if s.read.done then Cancel(s)
      else s.(prod := p.(pc := PAcquire))
    case PTake => if s.send.stop || s.send.failed then Cancel(s) else s.(prod := p.(pc := PEval))
    case PLocal(ro, eo) =>
      var s' := s.(prod := p.(local := LocalAfter(j, p, ro, eo), pc := PEnqueue(LocalHidden(j, p))));
      if LocalSucceeds(j, p, ro, eo) then s' else Cancel(s')
    case PPut =>
      if !p.pc.PEnqueue? then s
      else if s.send.stop || s.send.failed then Cancel(s)
      else s.(prod := p.(pc := PTop, submitted := p.submitted + 1),
              send := s.send.(queue := s.send.queue + [FrameOf(j, p.submitted, p.pc.hidden)]))
    case PJoinSender =>
      if p.failed || s.send.failed then CloseFirst(s).(prod := p.(pc := PDrain, failed := true))
      else s.(prod := p.(pc := PDrain))
    case PJoinReader => s.(prod := p.(pc := PDone))
    case _ => s
  }

  function SenderStep(s: State, act: Action): (s': State)
    requires |s.hops| >= 1
    ensures |s'.hops| == |s.hops|
  {
    var d := s.send;
    match act
    case SStep =>
      if d.stop || d.queue == [] then s.(send := d.(pc := SDone)) else s.(send := d.(pc := SBusy))
    case SWrite =>
      if d.queue == [] then s
      else
        var link := s.hops[0].link;
        PutHop(s, 0, s.hops[0].(link := link.(down := link.down.Write(d.queue[0])))).(send := d.(pc := SWrote))
    case SWriteFails => CloseFirst(s).(send := d.(pc := SDone, failed := true, stop := true))
    case SPop => if d.queue == [] then s else s.(send := d.(pc := SWait, queue := d.queue[1..]))
    case _ => s
  }

  function ReaderStep(j: Job, s: State, act: Action): (s': State)
    requires |s.hops| >= 1
    ensures |s'.hops| == |s.hops|
  {
    match act
    case RRead =>
      var link, d := s.hops[0].link, s.read;
      if !link.up.HasNext() then s
      else
        var r := link.up.Next();
        var s' := PutHop(s, 0, s.hops[0].(link := link.(up := link.up.Read())));
        if !Acceptable(j, d.accepted, r) then ReaderFails(s', IsRemoteError(j, d.accepted, r))
        else if d.accepted + 1 == j.count then
          s'.(read := d.(accepted := d.accepted + 1, done := true, final := Some(r.payload)))
        else s'.(read := d.(accepted := d.accepted + 1))
    case REof => ReaderFails(s, false)
    case _ => s
  }

  function ApplyCoordinator(j: Job, s: State, act: Action): (s': State)
    requires ValidJob(j) && |s.hops| == |j.hops|
    ensures |s'.hops| == |s.hops|
  {
    if act.SStep? || act.SWrite? || act.SWriteFails? || act.SPop? then SenderStep(s, act)
    else if act.RRead? || act.REof? then ReaderStep(j, s, act)
    else ProducerStep(j, s, act)
  }

  /** The receive loop: read a frame, queue it, or end. */
  function RxEffect(a: Hop, act: Action): Hop {
    match act
    case RxRead(_) =>
      if a.link.down.HasNext() then a.(rx := RxHold(a.link.down.Next()), link := a.link.(down := a.link.down.Read()))
        else a
    case RxPut(_) =>
      if !a.rx.RxHold? then a
      else if a.jobsClosed then CancelJobs(a).(rx := RxDone)
      else a.(rx := RxRun, jobs := a.jobs + [a.rx.w])
    case RxEof(_, drain) => if drain then a.(rx := RxDone, jobsClosed := true) else CancelJobs(a).(rx := RxDone)
    case _ => a
  }

  /** The evaluation thread recording, writing or dropping a frame for the next hop. */
  function ForwardEffect(a: Hop, act: Action): Hop {
    match act
    case EvTrack(_) =>
      if !a.ev.EvForward? then a
      else if a.fwd.closed then DropForward(a, a.ev.w.request, false)
      else a.(ev := EvSending(a.ev.w), fwd := a.fwd.(pending := a.fwd.pending + [a.ev.w.request]))
    case EvNoRoute(_) => if a.ev.EvForward? then DropForward(a, a.ev.w.request, false) else a
    case EvWrite(_) => a.(ev := EvIdle)
    case EvWriteFails(_) =>
      if !a.ev.EvSending? then a
      else DropForward(a, a.ev.w.request, true).(fwd := a.fwd.(pending := RemoveRequest(a.fwd.pending, a.ev.w.request)))
    case _ => a
  }

  /** The relay thread. */
  function RelayEffect(a: Hop, b: Hop, act: Action): Hop {
    match act
    case RlRead(_) => RelayReads(a, b)
    case RlEof(_) =>
      if a.fwd.pending == [] then RelayExits(a)
      else a.(fwd := a.fwd.(pending := a.fwd.pending[1..], relay := RlHold(Failure(a.fwd.pending[0]), true)))
    case RlWrite(_) =>
      if !a.fwd.relay.RlHold? then a
      else
        var a' := a.(link := a.link.(up := a.link.up.Write(a.fwd.relay.r)), fwd := a.fwd.(relay := RlRun));
        if a.fwd.relay.thenExit then RelayExits(a') else a'
    case RlWriteFails(_) => RelayExits(a)
    case _ => a
  }

  /** The evaluation thread answering upstream, and the ends of threads and sockets. */
  function AnswerEffect(a: Hop, act: Action): Hop {
    match act
    case EvExit(_) => a.(ev := EvDone)
    case EvAnswer(_) =>
      if !a.ev.EvReply? then a
      else a.(ev := EvIdle, link := Link(a.link.open && !a.ev.thenClose, a.link.down, a.link.up.Write(a.ev.r)))
    case EvAnswerFails(_) => Close(CancelJobs(a)).(ev := EvDone)
    case Teardown(_) => Close(a).(fwd := a.fwd.(closed := true))
    case Fault(_) => Close(a)
    case _ => a
  }

  /** The effect of an action of hop h on the hop itself; b is the next hop when there is one. */
  function ApplyHop(j: Job, h: nat, a: Hop, b: Option<Hop>, act: Action): Hop
    requires h < |j.hops|
  {
    if act.RxRead? || act.RxPut? || act.RxEof? then RxEffect(a, act)
    else if act.EvTake? then if a.jobs != [] then TakeJob(j, h, a, act.refuse, act.ro, act.eo) else a
    else if act.EvTrack? || act.EvNoRoute? || act.EvWrite? || act.EvWriteFails? then ForwardEffect(a, act)
    else if act.RlRead? || act.RlEof? || act.RlWrite? || act.RlWriteFails? then
      if b.Some? then RelayEffect(a, b.value, act) else a
    else AnswerEffect(a, act)
  }

  /** The relay pairs a result with its oldest pending request; anything unexpected ends it. */
  function RelayReads(a: Hop, b: Hop): Hop {
    if !b.link.up.HasNext() then a
    else if a.fwd.pending == [] then RelayExits(a)
    else
      var r := b.link.up.Next();
      a.(fwd := a.fwd.(pending := a.fwd.pending[1..],
                       relay := if r.request == a.fwd.pending[0] then RlHold(r, false)
                                else RlHold(Failure(a.fwd.pending[0]), true)))
  }

  /** The effect of an action of hop a on the next hop b, which is only ever on their common socket. */
  function ApplyNext(a: Hop, b: Hop, act: Action): Hop {
    match act
    case EvWrite(_) => if a.ev.EvSending? then b.(link := b.link.(down := b.link.down.Write(a.ev.w))) else b
    case EvWriteFails(_) => Close(b)
    case RlRead(_) => b.(link := b.link.(up := b.link.up.Read()))
    case Teardown(_) => Close(b)
    case _ => b
  }

  /** The hop an action belongs to; none for the three coordinator threads. */
  function ActorOf(act: Action): Option<nat> {
    match act
    case RxRead(h) => Some(h)
    case RxPut(h) => Some(h)
    case RxEof(h, _) => Some(h)
    case EvTake(h, _, _, _) => Some(h)
    case EvExit(h) => Some(h)
    case EvAnswer(h) => Some(h)
    case EvAnswerFails(h) => Some(h)
    case EvTrack(h) => Some(h)
    case EvNoRoute(h) => Some(h)
    case EvWrite(h) => Some(h)
    case EvWriteFails(h) => Some(h)
    case RlRead(h) => Some(h)
    case RlEof(h) => Some(h)
    case RlWrite(h) => Some(h)
    case RlWriteFails(h) => Some(h)
    case Teardown(h) => Some(h)
    case Fault(h) => Some(h)
    case _ => None
  }

  function Apply(j: Job, s: State, act: Action): (s': State)
    requires ValidJob(j) && |s.hops| == |j.hops|
    ensures |s'.hops| == |s.hops|
  {
    match ActorOf(act)
    case None => ApplyCoordinator(j, s, act)
    case Some(h) =>
      if h >= |s.hops| then s
      else if h + 1 == |s.hops| then PutHop(s, h, ApplyHop(j, h, s.hops[h], None, act))
      else
        var a, b := s.hops[h], s.hops[h + 1];
        PutHop(PutHop(s, h, ApplyHop(j, h, a, Some(b), act)), h + 1, ApplyNext(a, b, act))
  }

  // ---------------------------------------------------------------- runs

  /** A run is any sequence of actions, each enabled where it happens. */
  predicate ValidRun(j: Job, lim: Limits, s: State, run: seq<Action>)
    requires ValidJob(j) && |s.hops| == |j.hops|
    decreases |run|
  {
    run == [] || (Enabled(j, lim, s, run[0]) && ValidRun(j, lim, Apply(j, s, run[0]), run[1..]))
  }

  function After(j: Job, s: State, run: seq<Action>): (s': State)
    requires ValidJob(j) && |s.hops| == |j.hops|
    ensures |s'.hops| == |s.hops|
    decreases |run|
  {
    if run == [] then s else After(j, Apply(j, s, run[0]), run[1..])
  }

  /** All three coordinator threads have exited. */
  predicate Finished(s: State) {
    s.prod.pc.PDone? && s.send.pc.SDone? && s.read.done
  }

  /** The call returns 0 (up to the coordinator's own output head). */
  predicate Succeeded(s: State) {
    s.prod.pc.PDone? && !s.prod.failed && s.read.done && !s.read.failed
  }
}
