/** The ring between producer and sender refines the queue of the pipeline's transition system: any interleaving of ring
    operations, the unlocked ones included, with steps of all other threads is a run of the pipeline. */
module SenderRefinement {
  import opened Wire
  import opened WorkerSessions
  import opened Prefill
  import opened Pipeline
  import opened SenderRing

  /** The ring as the transition system sees it. */
  ghost function View(r: Ring<Work>): Sender
    requires r.Valid()
    reads r, r.slots
  {
    var pc := match r.sender
      case Waiting => SWait
      case Reading => SBusy
      case Written => SWrote
      case Gone => SDone;
    Sender(pc, r.Queue(), r.producerDone, r.stop, r.failed)
  }

  /** The ring and a state of the pipeline agree: on the queue and its flags, on whether the producer has a slot, on how
      many slots there are, on what went down the first socket, and, once the producer has filled its slot, on what
      it is about to queue. */
  ghost predicate Refines(r: Ring<Work>, lim: Limits, j: Job, s: State, filled: bool)
    requires ValidJob(j)
    reads r, r.slots
  {
    && r.Valid() && r.slots.Length == lim.slots && View(r) == s.send
    && (r.producer.Filling? <==> s.prod.pc.PEval? || s.prod.pc.PEnqueue?)
    && (s.send.failed ==> s.send.stop)
    && |s.hops| == |j.hops| && s.hops[0].link.down.log == r.sent
    && (filled ==> s.prod.pc.PEnqueue? && r.slots[r.tail] == FrameOf(j, s.prod.submitted, s.prod.pc.hidden))
  }

  method NewRing(buffers: array<Work>, ghost lim: Limits, ghost j: Job, ghost cl: Cluster) returns (r: Ring<Work>)
    requires buffers.Length == lim.slots >= 1 && ValidJob(j) && |cl.hops| == |j.hops|
    ensures fresh(r) && r.slots == buffers && Refines(r, lim, j, Init(cl), false)
  {
    r := new Ring(buffers);
  }

  // ---------------------------------------------------------------- the producer

  /** The producer asks for a slot, and gives up when the sender has stopped. */
  method TakeSlot(r: Ring<Work>, ghost lim: Limits, ghost j: Job, ghost s: State) returns (turn: Turn)
    requires ValidJob(j) && Refines(r, lim, j, s, false) && EnabledCoordinator(j, lim, s, PTake)
    modifies r
    ensures Refines(r, lim, j, ProducerStep(j, s, PTake), false)
    ensures turn.Proceed? <==> ProducerStep(j, s, PTake).prod.pc.PEval?
  {
    hide FrameOf;
    var slot: nat;
    turn, slot := r.AcquireSlot();
    if turn.GiveUp? {
      r.Cancel();
    }
  }

  /** It evaluates the chunk into its slot, outside the lock: nothing that the pipeline can see. */
  method FillFrame(r: Ring<Work>, x: Work, ghost lim: Limits, ghost j: Job, ghost s: State, ghost filled: bool)
    requires ValidJob(j) && Refines(r, lim, j, s, filled)
    requires s.prod.pc.PEnqueue? && x == FrameOf(j, s.prod.submitted, s.prod.pc.hidden)
    modifies r.slots
    ensures Refines(r, lim, j, s, true)
  {
    hide FrameOf, Live;
    r.Fill(x);
  }

  /** It queues its slot, or gives up. */
  method PutFrame(r: Ring<Work>, ghost lim: Limits, ghost j: Job, ghost s: State) returns (turn: Turn)
    requires ValidJob(j) && Refines(r, lim, j, s, true)
    modifies r
    ensures Refines(r, lim, j, ProducerStep(j, s, PPut), false)
    ensures turn.Proceed? <==> ProducerStep(j, s, PPut).prod.pc.PTop?
  {
    hide FrameOf, Live;
    turn := r.EnqueueSlot();
    if turn.GiveUp? {
      r.Cancel();
    }
  }

  /** Its local slice fails while it has a slot in hand. */
  method GiveSlotUp(r: Ring<Work>, ghost lim: Limits, ghost j: Job, ghost s: State, ghost act: Action)
    requires ValidJob(j) && Refines(r, lim, j, s, false) && act.PLocal? && EnabledCoordinator(j, lim, s, act)
    requires !LocalSucceeds(j, s.prod, act.ro, act.eo)
    modifies r
    ensures Refines(r, lim, j, ProducerStep(j, s, act), false)
  {
    hide FrameOf, Live, LocalSucceeds, LocalAfter, LocalHidden;
    r.Cancel();
  }

  /** Between two chunks: everything was submitted, or the reader has stopped. */
  method BetweenChunks(r: Ring<Work>, lim: Limits, j: Job, s: State)
    requires ValidJob(j) && Refines(r, lim, j, s, false) && EnabledCoordinator(j, lim, s, PWindow)
    modifies r
    ensures Refines(r, lim, j, ProducerStep(j, s, PWindow), false)
  {
    hide FrameOf, Live;
    if s.prod.submitted == j.count {
      r.Finish();
    } else if s.read.done {
      r.Cancel();
    }
  }

  // ---------------------------------------------------------------- the sender

  /** The sender waits for a frame, or exits. */
  method AwaitFrame(r: Ring<Work>, ghost lim: Limits, ghost j: Job, ghost s: State, ghost filled: bool)
    returns (turn: Turn)
    requires ValidJob(j) && Refines(r, lim, j, s, filled) && EnabledCoordinator(j, lim, s, SStep)
    modifies r
    ensures Refines(r, lim, j, SenderStep(s, SStep), filled) && (turn.GiveUp? <==> SenderStep(s, SStep).send.pc.SDone?)
  {
    hide FrameOf;
    QueueLength(r);
    turn := r.NextSlot();
  }

  lemma QueueLength(r: Ring<Work>)
    requires r.Valid()
    ensures |r.Queue()| == r.queued
  {
  }

  /** It writes the oldest frame to the first socket; the slot stays taken until that is done. */
  method WriteFrame(r: Ring<Work>, ghost lim: Limits, ghost j: Job, ghost s: State, ghost filled: bool)
    returns (x: Work)
    requires ValidJob(j) && Refines(r, lim, j, s, filled) && EnabledCoordinator(j, lim, s, SWrite)
    modifies r
    ensures Refines(r, lim, j, SenderStep(s, SWrite), filled)
    ensures SenderStep(s, SWrite).hops[0].link.down.log == s.hops[0].link.down.log + [x]
  {
    hide FrameOf, Live;
    x := r.SendSlot();
  }

  method WriteFails(r: Ring<Work>, ghost lim: Limits, ghost j: Job, ghost s: State, ghost filled: bool)
    requires ValidJob(j) && Refines(r, lim, j, s, filled) && s.send.pc.SBusy?
    modifies r
    ensures Refines(r, lim, j, SenderStep(s, SWriteFails), filled)
  {
    hide FrameOf, Live;
    r.SendFails();
  }

  /** It gives the slot back. */
  method FreeSlot(r: Ring<Work>, ghost lim: Limits, ghost j: Job, ghost s: State, ghost filled: bool)
    requires ValidJob(j) && Refines(r, lim, j, s, filled) && EnabledCoordinator(j, lim, s, SPop)
    modifies r
    ensures Refines(r, lim, j, SenderStep(s, SPop), filled)
  {
    hide FrameOf, Live;
    r.ReleaseSlot();
  }

  // ---------------------------------------------------------------- interleavings

  /** A step of the pipeline, or the producer filling its slot, which the pipeline does not show. */
  datatype Step = Fills(x: Work) | Acts(act: Action)

  /** What the threads wait for, in terms of the ring's own fields. */
  ghost predicate RingLets(r: Ring<Work>, lim: Limits, j: Job, s: State, filled: bool, step: Step)
    requires |s.hops| == |j.hops| >= 1
    requires ValidJob(j)
    reads r
  {
    match step
    case Fills(x) => s.prod.pc.PEnqueue? && x == FrameOf(j, s.prod.submitted, s.prod.pc.hidden)
    case Acts(PTake) => s.prod.pc.PAcquire? && (r.stop || r.queued < r.slots.Length)
    case Acts(PPut) => s.prod.pc.PEnqueue? && filled
    case Acts(SStep) => r.sender.Waiting? && (r.stop || r.queued != 0 || r.producerDone)
    case Acts(SWrite) => r.sender.Reading? && s.hops[0].link.open && s.hops[0].link.down.HasRoom(lim.capacity)
    case Acts(SWriteFails) => r.sender.Reading?
    case Acts(SPop) => r.sender.Written?
    case Acts(act) => Enabled(j, lim, s, act)
  }

  /** The same in terms of the pipeline's state. */
  predicate Lets(j: Job, lim: Limits, s: State, filled: bool, step: Step)
    requires |s.hops| == |j.hops| >= 1 && ValidJob(j)
  {
    match step
    case Fills(x) => s.prod.pc.PEnqueue? && x == FrameOf(j, s.prod.submitted, s.prod.pc.hidden)
    case Acts(act) => Enabled(j, lim, s, act) && (act.PPut? ==> filled)
  }

  /** The ring lets a thread go on exactly when the pipeline does. */
  lemma GuardsAgree(r: Ring<Work>, lim: Limits, j: Job, s: State, filled: bool, step: Step)
    requires ValidJob(j) && Refines(r, lim, j, s, filled)
    ensures RingLets(r, lim, j, s, filled, step) <==> Lets(j, lim, s, filled, step)
  {
    hide FrameOf, Live, EnabledMiddle, EnabledAny;
    QueueLength(r);
  }

  function StepTo(j: Job, s: State, step: Step): (s': State)
    requires ValidJob(j) && |s.hops| == |j.hops|
    ensures |s'.hops| == |s.hops|
  {
    if step.Fills? then s else Apply(j, s, step.act)
  }

  function FilledAfter(filled: bool, step: Step): bool {
    step.Fills? || (filled && !step.act.PPut?)
  }

  predicate ValidSteps(j: Job, lim: Limits, s: State, filled: bool, steps: seq<Step>)
    requires ValidJob(j) && |s.hops| == |j.hops|
    decreases |steps|
  {
    steps == []
    || (Lets(j, lim, s, filled, steps[0])
        && ValidSteps(j, lim, StepTo(j, s, steps[0]), FilledAfter(filled, steps[0]), steps[1..]))
  }

  function ActsOf(steps: seq<Step>): seq<Action> {
    if steps == [] then []
    else if steps[0].Fills? then ActsOf(steps[1..])
    else [steps[0].act] + ActsOf(steps[1..])
  }

  /** Steps of other threads than producer and sender, and of those two where they do not touch the ring. */
  predicate Aside(j: Job, s: State, act: Action)
    requires ValidJob(j)
  {
    && !act.PTake? && !act.PPut? && !act.PWindow? && !act.SStep? && !act.SWrite? && !act.SWriteFails? && !act.SPop?
    && (act.PLocal? ==> LocalSucceeds(j, s.prod, act.ro, act.eo))
  }

  lemma AsideKeeps(j: Job, lim: Limits, s: State, act: Action)
    requires ValidJob(j) && |s.hops| == |j.hops| && Enabled(j, lim, s, act) && Aside(j, s, act)
    ensures var s' := Apply(j, s, act);
      && s'.send == s.send && s'.hops[0].link.down.log == s.hops[0].link.down.log
      && (s'.prod.pc.PEval? || s'.prod.pc.PEnqueue? <==> s.prod.pc.PEval? || s.prod.pc.PEnqueue?)
      && (s.prod.pc.PEnqueue? ==> s'.prod == s.prod)
  {
    match ActorOf(act) {
      case None =>
        hide FrameOf, LocalSucceeds, LocalAfter, LocalHidden, Acceptable, IsRemoteError;
      case Some(h) =>
        hide ApplyHop, ApplyNext, EnabledCoordinator;
        HopActionShapes(j, h, s.hops[h], if h + 1 < |s.hops| then Some(s.hops[h + 1]) else None, act);
    }
  }

  lemma HopActionShapes(j: Job, h: nat, a: Hop, b: Option<Hop>, act: Action)
    requires h < |j.hops|
    ensures ApplyHop(j, h, a, b, act).link.down.log == a.link.down.log
  {
    hide Found, Evaluates, RunWork, Prepare, Forwarded, LastPayload, RemoveRequest;
  }

  /** One step of anyone, taken when the ring lets it. */
  method Do(r: Ring<Work>, lim: Limits, j: Job, s: State, ghost filled: bool, step: Step)
    requires ValidJob(j) && Refines(r, lim, j, s, filled) && RingLets(r, lim, j, s, filled, step)
    modifies r, r.slots
    ensures Lets(j, lim, s, filled, step) && Refines(r, lim, j, StepTo(j, s, step), FilledAfter(filled, step))
  {
    GuardsAgree(r, lim, j, s, filled, step);
    hide RingLets, FrameOf, Live, LocalSucceeds, ProducerStep, SenderStep, ReaderStep, ApplyHop, ApplyNext,
         EnabledMiddle, EnabledAny;
    match step {
      case Fills(x) => FillFrame(r, x, lim, j, s, filled);
      case Acts(act) =>
        if act.PTake? {
          var turn := TakeSlot(r, lim, j, s);
        } else if act.PPut? {
          var turn := PutFrame(r, lim, j, s);
        } else if act.PWindow? {
          BetweenChunks(r, lim, j, s);
        } else if act.PLocal? && !LocalSucceeds(j, s.prod, act.ro, act.eo) {
          GiveSlotUp(r, lim, j, s, act);
        } else if act.SStep? {
          var turn := AwaitFrame(r, lim, j, s, filled);
        } else if act.SWrite? {
          var x := WriteFrame(r, lim, j, s, filled);
        } else if act.SWriteFails? {
          WriteFails(r, lim, j, s, filled);
        } else if act.SPop? {
          FreeSlot(r, lim, j, s, filled);
        } else {
          AsideKeeps(j, lim, s, act);
        }
    }
  }

  lemma {:induction false} StepsAreARun(j: Job, lim: Limits, s: State, filled: bool, steps: seq<Step>)
    requires ValidJob(j) && |s.hops| == |j.hops| && ValidSteps(j, lim, s, filled, steps)
    ensures ValidRun(j, lim, s, ActsOf(steps))
    decreases |steps|
  {
    hide Enabled, Apply, FrameOf;
    if steps != [] {
      StepsAreARun(j, lim, StepTo(j, s, steps[0]), FilledAfter(filled, steps[0]), steps[1..]);
      if steps[0].Acts? { assert ActsOf(steps)[1..] == ActsOf(steps[1..]); }
    }
  }

  /** Whatever the interleaving, with the sender at work between filling a slot and queuing it, the ring and the
      pipeline go through the same run: they agree at every step, and at the end on everything that went down the
      first socket. */
  method Interleave(r: Ring<Work>, lim: Limits, j: Job, s0: State, steps: seq<Step>) returns (s: State)
    requires ValidJob(j) && Refines(r, lim, j, s0, false) && ValidSteps(j, lim, s0, false, steps)
    modifies r, r.slots
    ensures ValidRun(j, lim, s0, ActsOf(steps)) && s == After(j, s0, ActsOf(steps))
    ensures exists filled :: Refines(r, lim, j, s, filled)
    ensures s.hops[0].link.down.log == r.sent && r.sent <= r.submitted
  {
    hide Enabled, Apply, FrameOf, Lets, RingLets, View, Live;
    StepsAreARun(j, lim, s0, false, steps);
    s := s0;
    ghost var filled := false;
    var i := 0;
    while i < |steps|
      invariant 0 <= i <= |steps| && Refines(r, lim, j, s, filled)
      invariant ValidSteps(j, lim, s, filled, steps[i..])
      invariant After(j, s, ActsOf(steps[i..])) == After(j, s0, ActsOf(steps))
    {
      assert steps[i..][1..] == steps[i + 1..] && steps[i..][0] == steps[i];
      GuardsAgree(r, lim, j, s, filled, steps[i]);
      Do(r, lim, j, s, filled, steps[i]);
      if steps[i].Acts? { assert ActsOf(steps[i..])[1..] == ActsOf(steps[i + 1..]); }
      s, filled := StepTo(j, s, steps[i]), FilledAfter(filled, steps[i]);
      i := i + 1;
    }
  }
}
