/** What a hop of the pipeline answers when something goes wrong: which request an error names, and what becomes of the
    socket that carried it. */
module PipelineAnswers {
  import opened Wire
  import opened Engine
  import opened WorkerSessions
  import opened Prefill
  import opened Pipeline

  function Next(s: State, h: nat): Option<Hop> {
    if h + 1 < |s.hops| then Some(s.hops[h + 1]) else None
  }

  /** A hop's step, seen on the hop. */
  lemma OwnMove(j: Job, lim: Limits, s: State, h: nat, act: Action)
    requires ValidJob(j) && |s.hops| == |j.hops| && Enabled(j, lim, s, act) && ActorOf(act) == Some(h)
    ensures h < |s.hops| && Apply(j, s, act).hops[h] == ApplyHop(j, h, s.hops[h], Next(s, h), act)
    ensures if Next(s, h).Some? then EnabledMiddle(lim, s.hops[h], s.hops[h + 1], act)
            else EnabledAny(lim, s.hops[h], act)
  {
    hide ApplyHop, ApplyNext, ActorOf, EnabledMiddle, EnabledAny;
  }

  /** A job that is refused, or that the slice does not evaluate, is answered by an error for its own request, and the
      socket stays as it was. */
  lemma RefusalIsAnswered(j: Job, lim: Limits, s: State, h: nat, refuse: bool, ro: ResetOutcome, eo: EvalOutcome)
    requires ValidJob(j) && |s.hops| == |j.hops| && h < |s.hops|
    requires Enabled(j, lim, s, EvTake(h, refuse, ro, eo)) && s.hops[h].jobs != []
    requires var a := s.hops[h];
      refuse || !Evaluates(j.hops[h], Found(j, h, a.popped, a.session), a.jobs[0], ro, eo)
    requires Enabled(j, lim, Apply(j, s, EvTake(h, refuse, ro, eo)), EvAnswer(h))
    ensures var a, b := s.hops[h], Apply(j, Apply(j, s, EvTake(h, refuse, ro, eo)), EvAnswer(h)).hops[h];
      && b.link.up.log == a.link.up.log + [Result(a.jobs[0].request, true, 0, Ack)] && b.link.open
      && b.jobs == a.jobs[1..] && b.ev.EvIdle? && b.popped == a.popped + 1 && b.evals == a.evals
  {
    hide Evaluates, RunWork, Prepare, Forwarded, LastPayload, Found, Enabled, Apply, EnabledMiddle;
    OwnMove(j, lim, s, h, EvTake(h, refuse, ro, eo));
    OwnMove(j, lim, Apply(j, s, EvTake(h, refuse, ro, eo)), h, EvAnswer(h));
    AnswerNeedsSocket(lim, Apply(j, s, EvTake(h, refuse, ro, eo)), h);
  }

  lemma AnswerNeedsSocket(lim: Limits, s: State, h: nat)
    requires h < |s.hops|
    requires if Next(s, h).Some? then EnabledMiddle(lim, s.hops[h], s.hops[h + 1], EvAnswer(h))
             else EnabledAny(lim, s.hops[h], EvAnswer(h))
    ensures s.hops[h].ev.EvReply? && s.hops[h].link.open
  {
  }

  // ---------------------------------------------------------------- a socket that was shut down

  /** Nothing more is written on a socket that was shut down. */
  predicate Shut(s: State, h: nat, log: seq<Result>) {
    h < |s.hops| && !s.hops[h].link.open && s.hops[h].link.up.log == log
  }

  lemma OwnStepOnShut(j: Job, lim: Limits, h: nat, a: Hop, b: Option<Hop>, act: Action)
    requires h < |j.hops| && !a.link.open
    requires if b.Some? then EnabledMiddle(lim, a, b.value, act) else EnabledAny(lim, a, act)
    ensures !ApplyHop(j, h, a, b, act).link.open && ApplyHop(j, h, a, b, act).link.up.log == a.link.up.log
  {
    hide Evaluates, RunWork, Prepare, Forwarded, LastPayload, Found;
  }

  lemma NextOnShut(a: Hop, b: Hop, act: Action)
    requires !b.link.open
    ensures !ApplyNext(a, b, act).link.open && ApplyNext(a, b, act).link.up.log == b.link.up.log
  {
  }

  lemma CoordinatorOnShut(j: Job, s: State, act: Action, h: nat, log: seq<Result>)
    requires ValidJob(j) && |s.hops| == |j.hops| && Shut(s, h, log)
    ensures Shut(ApplyCoordinator(j, s, act), h, log)
  {
    hide LocalHidden, LocalSucceeds, LocalAfter, FrameOf, Acceptable, IsRemoteError;
  }

  lemma StepOnShut(j: Job, lim: Limits, s: State, act: Action, h: nat, log: seq<Result>)
    requires ValidJob(j) && |s.hops| == |j.hops| && Enabled(j, lim, s, act) && Shut(s, h, log)
    ensures Shut(Apply(j, s, act), h, log)
  {
    hide ApplyHop, ApplyNext, ApplyCoordinator, EnabledCoordinator, EnabledMiddle, EnabledAny, ActorOf;
    match ActorOf(act) {
      case None => CoordinatorOnShut(j, s, act, h, log);
      case Some(k) =>
        if k == h { OwnStepOnShut(j, lim, h, s.hops[h], Next(s, h), act); }
        if k + 1 == h { NextOnShut(s.hops[k], s.hops[h], act); }
    }
  }

  lemma {:induction false} RunOnShut(j: Job, lim: Limits, s: State, run: seq<Action>, h: nat, log: seq<Result>)
    requires ValidJob(j) && |s.hops| == |j.hops| && ValidRun(j, lim, s, run) && Shut(s, h, log)
    ensures Shut(After(j, s, run), h, log)
    decreases |run|
  {
    hide Enabled, Apply, Shut;
    if run != [] {
      StepOnShut(j, lim, s, run[0], h, log);
      RunOnShut(j, lim, Apply(j, s, run[0]), run[1..], h, log);
    }
  }

  // ---------------------------------------------------------------- a frame that could not be passed on

  /** When a frame cannot be written to the next hop, that socket is shut down, the request is no longer pending, and
      the error for it is the last thing that the hop ever answers: whatever happens afterwards, its own socket is shut
      down too and carries nothing more. */
  lemma FailedForwardIsTheLastAnswer(j: Job, lim: Limits, s: State, h: nat, run: seq<Action>)
    requires ValidJob(j) && |s.hops| == |j.hops| && h + 1 < |s.hops| && Enabled(j, lim, s, EvWriteFails(h))
    requires Enabled(j, lim, Apply(j, s, EvWriteFails(h)), EvAnswer(h))
    requires ValidRun(j, lim, Apply(j, Apply(j, s, EvWriteFails(h)), EvAnswer(h)), run)
    ensures s.hops[h].ev.EvSending?
    ensures var a, s1 := s.hops[h], Apply(j, s, EvWriteFails(h));
      && !s1.hops[h + 1].link.open && s1.hops[h].fwd.pending == RemoveRequest(a.fwd.pending, a.ev.w.request)
      && Shut(After(j, Apply(j, s1, EvAnswer(h)), run), h, a.link.up.log + [Result(a.ev.w.request, true, 0, Ack)])
  {
    hide ValidRun, After, Enabled, Apply, RemoveRequest;
    var s1 := Apply(j, s, EvWriteFails(h));
    OwnMove(j, lim, s, h, EvWriteFails(h));
    WriteFailsShuts(j, s, h);
    OwnMove(j, lim, s1, h, EvAnswer(h));
    RunOnShut(j, lim, Apply(j, s1, EvAnswer(h)), run, h,
              s.hops[h].link.up.log + [Result(s.hops[h].ev.w.request, true, 0, Ack)]);
  }

  lemma WriteFailsShuts(j: Job, s: State, h: nat)
    requires ValidJob(j) && |s.hops| == |j.hops| && h + 1 < |s.hops|
    ensures !Apply(j, s, EvWriteFails(h)).hops[h + 1].link.open
  {
    hide ApplyHop;
    assert ActorOf(EvWriteFails(h)) == Some(h);
  }

  // ---------------------------------------------------------------- what the relay passes on

  /** The relay answers the oldest request that was passed on, and no other: with the result that came for it, or, if
      what came answers another request, with an error for it, and then it exits and shuts the socket down. */
  lemma RelayAnswersTheOldest(j: Job, lim: Limits, s: State, h: nat)
    requires ValidJob(j) && |s.hops| == |j.hops| && h + 1 < |s.hops|
    requires Enabled(j, lim, s, RlRead(h)) && s.hops[h].fwd.pending != []
    requires Enabled(j, lim, Apply(j, s, RlRead(h)), RlWrite(h))
    ensures s.hops[h + 1].link.up.HasNext()
    ensures var a, r := s.hops[h], s.hops[h + 1].link.up.Next();
      var b, request := Apply(j, Apply(j, s, RlRead(h)), RlWrite(h)).hops[h], a.fwd.pending[0];
      && b.fwd.pending == a.fwd.pending[1..]
      && (if r.request == request then
            b.link.up.log == a.link.up.log + [r] && b.link.open && b.fwd.relay.RlRun? && b.fwd.closed == a.fwd.closed
          else
            b.link.up.log == a.link.up.log + [Result(request, true, 0, Ack)] && !b.link.open && b.fwd.relay.RlDone?
            && b.fwd.closed)
  {
    hide Enabled, Apply, ApplyNext;
    OwnMove(j, lim, s, h, RlRead(h));
    OwnMove(j, lim, Apply(j, s, RlRead(h)), h, RlWrite(h));
  }

  /** When the next hop is lost, the oldest pending request is answered by an error, and the relay exits. */
  lemma LossIsAnswered(j: Job, lim: Limits, s: State, h: nat)
    requires ValidJob(j) && |s.hops| == |j.hops| && h + 1 < |s.hops|
    requires Enabled(j, lim, s, RlEof(h)) && s.hops[h].fwd.pending != []
    requires Enabled(j, lim, Apply(j, s, RlEof(h)), RlWrite(h))
    ensures var a, b := s.hops[h], Apply(j, Apply(j, s, RlEof(h)), RlWrite(h)).hops[h];
      && b.link.up.log == a.link.up.log + [Result(a.fwd.pending[0], true, 0, Ack)] && !b.link.open
      && b.fwd.pending == a.fwd.pending[1..] && b.fwd.relay.RlDone? && b.fwd.closed
  {
    hide Enabled, Apply, ApplyNext;
    OwnMove(j, lim, s, h, RlEof(h));
    OwnMove(j, lim, Apply(j, s, RlEof(h)), h, RlWrite(h));
  }
}
