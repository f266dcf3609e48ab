/** The pipelined prefill among other connections: between any two steps of its threads another connection may reach
    the session of any hop, or clear it.  Every such history is a run of the pipeline whose job says what
    reached each hop before each of its frames. */
module PipelineEvents {
  import opened Wire
  import opened Engine
  import opened WorkerSessions
  import opened Prefill
  import opened Pipeline
  import opened PipelineSafety
  import opened PipelineTheorems
  import opened PipelineProgress
  import opened Agreement

  /** A step of one of the pipeline's own threads, or an operation of another connection at hop h. */
  datatype Event = Own(act: Action) | Stray(h: nat, op: Op)

  /** A hop takes a job and runs it against its session as it is. */
  function TakeNow(j: Job, s: State, act: Action): (s': State)
    requires ValidJob(j) && |s.hops| == |j.hops| && act.EvTake?
    ensures |s'.hops| == |s.hops|
  {
    if act.h >= |s.hops| || s.hops[act.h].jobs == [] then s
    else PutHop(s, act.h, RunJob(j, act.h, s.hops[act.h], s.hops[act.h].session, act.refuse, act.ro, act.eo))
  }

  function Happen(j: Job, s: State, ev: Event): (s': State)
    requires ValidJob(j) && |s.hops| == |j.hops|
    ensures |s'.hops| == |s.hops|
  {
    match ev
    case Own(act) => if act.EvTake? then TakeNow(j, s, act) else Apply(j, s, act)
    case Stray(h, op) =>
      if h >= |s.hops| then s
      else PutHop(s, h, s.hops[h].(session := SessionStep(j.hops[h], s.hops[h].session, j.session, op)))
  }

  predicate Possible(j: Job, lim: Limits, s: State, ev: Event)
    requires |s.hops| == |j.hops| >= 1
  {
    match ev
    case Own(act) => Enabled(j, lim, s, act)
    case Stray(h, _) => h < |s.hops|
  }

  predicate ValidHistory(j: Job, lim: Limits, s: State, evs: seq<Event>)
    requires ValidJob(j) && |s.hops| == |j.hops|
    decreases |evs|
  {
    evs == [] || (Possible(j, lim, s, evs[0]) && ValidHistory(j, lim, Happen(j, s, evs[0]), evs[1..]))
  }

  function AfterAll(j: Job, s: State, evs: seq<Event>): (s': State)
    requires ValidJob(j) && |s.hops| == |j.hops|
    ensures |s'.hops| == |s.hops|
    decreases |evs|
  {
    if evs == [] then s else AfterAll(j, Happen(j, s, evs[0]), evs[1..])
  }

  // ---------------------------------------------------------------- what a history consists of

  function Acts(evs: seq<Event>): seq<Action> {
    if evs == [] then []
    else if evs[0].Own? then [evs[0].act] + Acts(evs[1..])
    else Acts(evs[1..])
  }

  /** What reaches hop h after its first i frames from here on, and before the next one. */
  function Between(evs: seq<Event>, h: nat, i: nat): seq<Op>
    decreases |evs|
  {
    if evs == [] then []
    else
      match evs[0]
      case Stray(k, op) => (if k == h && i == 0 then [op] else []) + Between(evs[1..], h, i)
      case Own(act) =>
        if !act.EvTake? || act.h != h then Between(evs[1..], h, i)
        else if i == 0 then []
        else Between(evs[1..], h, i - 1)
  }

  /** The job says what other connections do in this history. */
  ghost predicate Describes(j: Job, evs: seq<Event>) {
    forall h: nat, i: nat :: j.strays(h, i) == Between(evs, h, i)
  }

  // ---------------------------------------------------------------- one event

  /** The actual state: as in the run, except that each session already has what reached it since its last frame. */
  ghost predicate Ahead(j: Job, s: State, t: State, since: seq<seq<Op>>)
    requires ValidJob(j)
  {
    && |s.hops| == |t.hops| == |j.hops| == |since|
    && t == s.(hops := t.hops)
    && forall h :: 0 <= h < |s.hops| ==>
         t.hops[h] == s.hops[h].(session := SessionRun(j.hops[h], s.hops[h].session, j.session, since[h]))
  }

  /** What the job says about the rest of the history. */
  ghost predicate Foretold(j: Job, s: State, since: seq<seq<Op>>, evs: seq<Event>)
    requires |since| == |s.hops|
  {
    forall h, i: nat :: 0 <= h < |s.hops| ==>
      j.strays(h, s.hops[h].popped + i) == (if i == 0 then since[h] else []) + Between(evs, h, i)
  }

  /** A thread's step does not depend on the sessions, unless it takes a job. */
  lemma SameStep(j: Job, lim: Limits, s: State, t: State, since: seq<seq<Op>>, act: Action)
    requires ValidJob(j) && Ahead(j, s, t, since) && Enabled(j, lim, t, act)
    ensures Enabled(j, lim, s, act)
    ensures !act.EvTake? ==> Ahead(j, Apply(j, s, act), Apply(j, t, act), since)
    ensures !act.EvTake? ==> forall h :: 0 <= h < |s.hops| ==> Apply(j, s, act).hops[h].popped == s.hops[h].popped
  {
    hide SessionRun, EnabledCoordinator, EnabledMiddle, EnabledAny, ApplyCoordinator, ApplyHop, ApplyNext;
    match ActorOf(act) {
      case None => SameCoordinatorStep(j, lim, s, t, since, act);
      case Some(h) =>
        SameHopEnabled(j, lim, s, t, since, act);
        if !act.EvTake? { SameStepOfHop(j, s, t, since, h, act); }
    }
  }

  lemma SameHopEnabled(j: Job, lim: Limits, s: State, t: State, since: seq<seq<Op>>, act: Action)
    requires ValidJob(j) && Ahead(j, s, t, since) && ActorOf(act).Some?
    ensures Enabled(j, lim, s, act) == Enabled(j, lim, t, act)
  {
    hide SessionRun, EnabledCoordinator, EnabledMiddle, EnabledAny;
    var h := ActorOf(act).value;
    if h < |s.hops| {
      var b := if h + 1 < |s.hops| then Some(s.hops[h + 1]) else None;
      var b' := if h + 1 < |s.hops| then Some(t.hops[h + 1]) else None;
      SameGuards(lim, s.hops[h], t.hops[h], b, b', act);
    }
  }

  lemma SameStepOfHop(j: Job, s: State, t: State, since: seq<seq<Op>>, h: nat, act: Action)
    requires ValidJob(j) && Ahead(j, s, t, since) && ActorOf(act) == Some(h) && h < |s.hops| && !act.EvTake?
    ensures Ahead(j, Apply(j, s, act), Apply(j, t, act), since)
    ensures forall k :: 0 <= k < |s.hops| ==> Apply(j, s, act).hops[k].popped == s.hops[k].popped
  {
    hide SessionRun, ApplyHop, ApplyNext, ActorOf;
    var b := if h + 1 < |s.hops| then Some(s.hops[h + 1]) else None;
    var b' := if h + 1 < |s.hops| then Some(t.hops[h + 1]) else None;
    SameHopStep(j, h, s.hops[h], t.hops[h], b, b', act);
    if b.Some? { SameNext(s.hops[h], t.hops[h], b.value, b'.value, act); }
  }

  /** Two hops that differ in their sessions only. */
  ghost predicate Alike(a: Hop, a': Hop) {
    a' == a.(session := a'.session)
  }

  lemma SameGuards(lim: Limits, a: Hop, a': Hop, b: Option<Hop>, b': Option<Hop>, act: Action)
    requires Alike(a, a') && b.Some? == b'.Some? && (b.Some? ==> Alike(b.value, b'.value))
    ensures EnabledAny(lim, a, act) == EnabledAny(lim, a', act)
    ensures b.Some? ==> EnabledMiddle(lim, a, b.value, act) == EnabledMiddle(lim, a', b'.value, act)
  {
  }

  lemma SameOwnEffects(a: Hop, a': Hop, act: Action)
    requires Alike(a, a')
    ensures RxEffect(a', act) == RxEffect(a, act).(session := a'.session)
    ensures AnswerEffect(a', act) == AnswerEffect(a, act).(session := a'.session)
    ensures RxEffect(a, act).session == AnswerEffect(a, act).session == a.session
    ensures RxEffect(a, act).popped == AnswerEffect(a, act).popped == a.popped
  {
  }

  lemma SameForward(a: Hop, a': Hop, act: Action)
    requires Alike(a, a')
    ensures ForwardEffect(a', act) == ForwardEffect(a, act).(session := a'.session)
    ensures ForwardEffect(a, act).session == a.session && ForwardEffect(a, act).popped == a.popped
  {
    hide RemoveRequest;
  }

  lemma SameRelay(a: Hop, a': Hop, b: Hop, b': Hop, act: Action)
    requires Alike(a, a') && Alike(b, b')
    ensures RelayEffect(a', b', act) == RelayEffect(a, b, act).(session := a'.session)
    ensures RelayEffect(a, b, act).session == a.session && RelayEffect(a, b, act).popped == a.popped
  {
  }

  lemma SameHopStep(j: Job, h: nat, a: Hop, a': Hop, b: Option<Hop>, b': Option<Hop>, act: Action)
    requires h < |j.hops| && Alike(a, a') && b.Some? == b'.Some? && (b.Some? ==> Alike(b.value, b'.value))
    requires !act.EvTake?
    ensures ApplyHop(j, h, a', b', act) == ApplyHop(j, h, a, b, act).(session := a'.session)
    ensures ApplyHop(j, h, a, b, act).session == a.session && ApplyHop(j, h, a, b, act).popped == a.popped
  {
    hide RxEffect, AnswerEffect, ForwardEffect, RelayEffect;
    SameOwnEffects(a, a', act);
    SameForward(a, a', act);
    if b.Some? { SameRelay(a, a', b.value, b'.value, act); }
  }

  lemma SameNext(a: Hop, a': Hop, b: Hop, b': Hop, act: Action)
    requires Alike(a, a') && Alike(b, b')
    ensures ApplyNext(a', b', act) == ApplyNext(a, b, act).(session := b'.session)
    ensures ApplyNext(a, b, act).session == b.session && ApplyNext(a, b, act).popped == b.popped
  {
  }

  /** The coordinator only sees and touches the first socket. */
  ghost predicate SameCoordinator(s: State, t: State, s': State, t': State) {
    && |s.hops| == |t.hops| >= 1 && |s'.hops| == |s.hops|
    && t' == s'.(hops := t'.hops)
    && s'.hops == s.hops[0 := s.hops[0].(link := s'.hops[0].link)]
    && t'.hops == t.hops[0 := t.hops[0].(link := s'.hops[0].link)]
  }

  lemma SameProducer(j: Job, s: State, t: State, act: Action)
    requires ValidJob(j) && |s.hops| == |t.hops| == |j.hops| && t == s.(hops := t.hops)
    requires t.hops[0].link == s.hops[0].link
    ensures SameCoordinator(s, t, ProducerStep(j, s, act), ProducerStep(j, t, act))
  {
    hide LocalHidden, LocalSucceeds, LocalAfter, FrameOf, Cancel;
    var p := s.prod;
    SameCancel(s, t, p);
    if act.PLocal? {
      SameCancel(s, t, p.(local := LocalAfter(j, p, act.ro, act.eo), pc := PEnqueue(LocalHidden(j, p))));
    }
    SameCloseFirst(s, t);
  }

  lemma SameCloseFirst(s: State, t: State)
    requires |s.hops| == |t.hops| >= 1 && t == s.(hops := t.hops) && t.hops[0].link == s.hops[0].link
    ensures SameCoordinator(s, t, s, t) && SameCoordinator(s, t, CloseFirst(s), CloseFirst(t))
  {
  }

  lemma SameCancel(s: State, t: State, p: Producer)
    requires |s.hops| == |t.hops| >= 1 && t == s.(hops := t.hops) && t.hops[0].link == s.hops[0].link
    ensures SameCoordinator(s, t, Cancel(s.(prod := p)), Cancel(t.(prod := p)))
  {
  }

  lemma SameSender(s: State, t: State, act: Action)
    requires |s.hops| == |t.hops| >= 1 && t == s.(hops := t.hops) && t.hops[0].link == s.hops[0].link
    ensures SameCoordinator(s, t, SenderStep(s, act), SenderStep(t, act))
  {
  }

  lemma SameReader(j: Job, s: State, t: State, act: Action)
    requires |s.hops| == |t.hops| >= 1 && t == s.(hops := t.hops) && t.hops[0].link == s.hops[0].link
    ensures SameCoordinator(s, t, ReaderStep(j, s, act), ReaderStep(j, t, act))
  {
    hide Acceptable, IsRemoteError;
  }

  lemma SameCoordinatorStep(j: Job, lim: Limits, s: State, t: State, since: seq<seq<Op>>, act: Action)
    requires ValidJob(j) && Ahead(j, s, t, since)
    ensures EnabledCoordinator(j, lim, s, act) == EnabledCoordinator(j, lim, t, act)
    ensures Ahead(j, ApplyCoordinator(j, s, act), ApplyCoordinator(j, t, act), since)
    ensures forall h :: 0 <= h < |s.hops| ==> ApplyCoordinator(j, s, act).hops[h].popped == s.hops[h].popped
  {
    hide SessionRun, ProducerStep, SenderStep, ReaderStep, SameCoordinator;
    SameProducer(j, s, t, act);
    SameSender(s, t, act);
    SameReader(j, s, t, act);
    StillAhead(j, s, t, ApplyCoordinator(j, s, act), ApplyCoordinator(j, t, act), since);
  }

  lemma StillAhead(j: Job, s: State, t: State, s': State, t': State, since: seq<seq<Op>>)
    requires ValidJob(j) && Ahead(j, s, t, since) && SameCoordinator(s, t, s', t')
    ensures Ahead(j, s', t', since)
    ensures forall h :: 0 <= h < |s.hops| ==> s'.hops[h].popped == s.hops[h].popped
  {
    hide SessionRun;
  }

  lemma TakeGuard(j: Job, lim: Limits, t: State, act: Action)
    requires |t.hops| == |j.hops| >= 1 && act.EvTake? && Enabled(j, lim, t, act)
    ensures act.h < |t.hops| && t.hops[act.h].jobs != []
  {
  }

  /** A hop takes its next job: the operations since its last one are those the job foretold. */
  lemma SameTake(j: Job, lim: Limits, s: State, t: State, since: seq<seq<Op>>, evs: seq<Event>, act: Action)
    requires ValidJob(j) && Ahead(j, s, t, since) && evs != [] && evs[0] == Own(act)
    requires act.EvTake? && Enabled(j, lim, t, act) && Foretold(j, s, since, evs)
    ensures act.h < |s.hops| && Ahead(j, Apply(j, s, act), TakeNow(j, t, act), since[act.h := []])
    ensures Foretold(j, Apply(j, s, act), since[act.h := []], evs[1..])
  {
    hide RunWork, Evaluates, Prepare, Forwarded, LastPayload, SessionRun, Enabled, Apply, Foretold, Between, RunJob;
    TakeGuard(j, lim, t, act);
    var h := act.h;
    TakeMoves(j, s, act);
    FoundHere(j, s, since, evs, act);
    SameJob(j, s, t, act, SessionRun(j.hops[h], s.hops[h].session, j.session, since[h]));
    NothingRuns(j, Apply(j, s, act).hops[h]);
    ForetoldAfterTake(j, s, Apply(j, s, act), since, evs, act);
  }

  lemma NothingRuns(j: Job, a: Hop)
    ensures forall e :: SessionRun(e, a.session, j.session, []) == a.session
  {
  }

  lemma FoundHere(j: Job, s: State, since: seq<seq<Op>>, evs: seq<Event>, act: Action)
    requires |since| == |s.hops| == |j.hops| && evs != [] && evs[0] == Own(act) && act.EvTake? && act.h < |s.hops|
    requires Foretold(j, s, since, evs)
    ensures j.strays(act.h, s.hops[act.h].popped) == since[act.h]
  {
    assert j.strays(act.h, s.hops[act.h].popped + 0) == since[act.h] + Between(evs, act.h, 0);
  }

  lemma SameJob(j: Job, s: State, t: State, act: Action, ws: WorkerSession)
    requires ValidJob(j) && |s.hops| == |t.hops| == |j.hops| && act.EvTake? && act.h < |s.hops|
    requires s.hops[act.h].jobs != []
    requires t.hops[act.h] == s.hops[act.h].(session := ws)
    requires Found(j, act.h, s.hops[act.h].popped, s.hops[act.h].session) == ws
    ensures TakeNow(j, t, act)
      == t.(hops := t.hops[act.h := TakeJob(j, act.h, s.hops[act.h], act.refuse, act.ro, act.eo)])
  {
    hide RunWork, Evaluates, Prepare, Forwarded, LastPayload, Found;
  }

  lemma ForetoldAfterTake(j: Job, s: State, s': State, since: seq<seq<Op>>, evs: seq<Event>, act: Action)
    requires |since| == |s.hops| == |s'.hops| && evs != [] && evs[0] == Own(act) && act.EvTake? && act.h < |s.hops|
    requires Foretold(j, s, since, evs) && s'.hops[act.h].popped == s.hops[act.h].popped + 1
    requires forall k :: 0 <= k < |s.hops| && k != act.h ==> s'.hops[k] == s.hops[k]
    ensures Foretold(j, s', since[act.h := []], evs[1..])
  {
    var h, now := act.h, since[act.h := []];
    forall k, i: nat | 0 <= k < |s.hops|
      ensures j.strays(k, s'.hops[k].popped + i) == (if i == 0 then now[k] else []) + Between(evs[1..], k, i)
    {
      if k == h {
        assert j.strays(h, s.hops[h].popped + (i + 1)) == [] + Between(evs, h, i + 1);
        assert s.hops[h].popped + (i + 1) == s'.hops[h].popped + i;
      } else {
        assert j.strays(k, s.hops[k].popped + i) == (if i == 0 then since[k] else []) + Between(evs, k, i);
      }
    }
  }

  lemma TakeMoves(j: Job, s: State, act: Action)
    requires ValidJob(j) && |s.hops| == |j.hops| && act.EvTake? && act.h < |s.hops| && s.hops[act.h].jobs != []
    ensures Apply(j, s, act)
      == s.(hops := s.hops[act.h := TakeJob(j, act.h, s.hops[act.h], act.refuse, act.ro, act.eo)])
    ensures Apply(j, s, act).hops[act.h].popped == s.hops[act.h].popped + 1
  {
    hide RunWork, Evaluates, Prepare, Forwarded, LastPayload, Found;
    if act.h + 1 < |s.hops| {
      var hops := s.hops[act.h := TakeJob(j, act.h, s.hops[act.h], act.refuse, act.ro, act.eo)];
      assert hops[act.h + 1 := s.hops[act.h + 1]] == hops;
    }
  }

  /** Another connection reaches a hop's session. */
  lemma SameStray(j: Job, s: State, t: State, since: seq<seq<Op>>, evs: seq<Event>, h: nat, op: Op)
    requires ValidJob(j) && Ahead(j, s, t, since) && evs != [] && evs[0] == Stray(h, op)
    requires h < |s.hops| && Foretold(j, s, since, evs)
    ensures Ahead(j, s, Happen(j, t, evs[0]), since[h := since[h] + [op]])
    ensures Foretold(j, s, since[h := since[h] + [op]], evs[1..])
  {
    hide SessionStep, SessionRun, Between, Foretold;
    SessionRunAppend(j.hops[h], s.hops[h].session, j.session, since[h], [op]);
    OneOp(j.hops[h], t.hops[h].session, j.session, op);
    ForetoldAfterStray(j, s, since, evs, h, op);
  }

  lemma ForetoldAfterStray(j: Job, s: State, since: seq<seq<Op>>, evs: seq<Event>, h: nat, op: Op)
    requires |since| == |s.hops| && evs != [] && evs[0] == Stray(h, op) && h < |s.hops| && Foretold(j, s, since, evs)
    ensures Foretold(j, s, since[h := since[h] + [op]], evs[1..])
  {
    var now := since[h := since[h] + [op]];
    forall k, i: nat | 0 <= k < |s.hops|
      ensures j.strays(k, s.hops[k].popped + i) == (if i == 0 then now[k] else []) + Between(evs[1..], k, i)
    {
      assert j.strays(k, s.hops[k].popped + i) == (if i == 0 then since[k] else []) + Between(evs, k, i);
      if k == h && i == 0 {
        assert since[h] + ([op] + Between(evs[1..], h, 0)) == since[h] + [op] + Between(evs[1..], h, 0);
      } else {
        assert [] + Between(evs[1..], k, i) == Between(evs[1..], k, i);
      }
    }
  }

  lemma OneOp(e: SliceEngine, ws: WorkerSession, id: U64, op: Op)
    ensures SessionRun(e, ws, id, [op]) == SessionStep(e, ws, id, op)
  {
    hide SessionStep;
    assert [op][1..] == [];
  }

  // ---------------------------------------------------------------- a whole history

  lemma {:induction false} HistoryIsARun(j: Job, lim: Limits, s: State, t: State, since: seq<seq<Op>>, evs: seq<Event>)
    requires ValidJob(j) && Ahead(j, s, t, since) && Foretold(j, s, since, evs) && ValidHistory(j, lim, t, evs)
    ensures ValidRun(j, lim, s, Acts(evs))
    ensures var s', t' := After(j, s, Acts(evs)), AfterAll(j, t, evs);
      && t' == s'.(hops := t'.hops)
      && forall h ::
        0 <= h < |s.hops| ==> t'.hops[h] == s'.hops[h].(session := Found(j, h, s'.hops[h].popped, s'.hops[h].session))
    decreases |evs|
  {
    hide Apply, Enabled, TakeNow, Foretold, SessionRun, SessionStep;
    if evs == [] {
      EndOfHistory(j, s, since);
    } else {
      var rest := evs[1..];
      match evs[0] {
        case Stray(h, op) =>
          SameStray(j, s, t, since, evs, h, op);
          HistoryIsARun(j, lim, s, Happen(j, t, evs[0]), since[h := since[h] + [op]], rest);
        case Own(act) =>
          SameStep(j, lim, s, t, since, act);
          assert ([act] + Acts(rest))[1..] == Acts(rest);
          if act.EvTake? {
            SameTake(j, lim, s, t, since, evs, act);
            HistoryIsARun(j, lim, Apply(j, s, act), TakeNow(j, t, act), since[act.h := []], rest);
          } else {
            StillForetold(j, s, Apply(j, s, act), since, evs, act);
            HistoryIsARun(j, lim, Apply(j, s, act), Apply(j, t, act), since, rest);
          }
      }
    }
  }

  lemma StillForetold(j: Job, s: State, s': State, since: seq<seq<Op>>, evs: seq<Event>, act: Action)
    requires |since| == |s.hops| == |s'.hops| && evs != [] && evs[0] == Own(act) && !act.EvTake?
    requires Foretold(j, s, since, evs)
    requires forall h :: 0 <= h < |s.hops| ==> s'.hops[h].popped == s.hops[h].popped
    ensures Foretold(j, s', since, evs[1..])
  {
    forall h, i: nat | 0 <= h < |s.hops|
      ensures j.strays(h, s'.hops[h].popped + i) == (if i == 0 then since[h] else []) + Between(evs[1..], h, i)
    {
      assert j.strays(h, s.hops[h].popped + i) == (if i == 0 then since[h] else []) + Between(evs, h, i);
    }
  }

  lemma EndOfHistory(j: Job, s: State, since: seq<seq<Op>>)
    requires |since| == |s.hops| && Foretold(j, s, since, [])
    ensures forall h :: 0 <= h < |s.hops| ==> j.strays(h, s.hops[h].popped) == since[h]
  {
    forall h | 0 <= h < |s.hops| ensures j.strays(h, s.hops[h].popped) == since[h] {
      assert j.strays(h, s.hops[h].popped + 0) == since[h] + Between([], h, 0);
    }
  }

  lemma StartOfHistory(j: Job, cl: Cluster, evs: seq<Event>) returns (since: seq<seq<Op>>)
    requires ValidJob(j) && |cl.hops| == |j.hops| && Describes(j, evs)
    ensures |since| == |Init(cl).hops| && Ahead(j, Init(cl), Init(cl), since) && Foretold(j, Init(cl), since, evs)
  {
    hide Between, Describes, Ahead, Foretold;
    since := seq(|cl.hops|, h => []);
    NothingSince(j, Init(cl), since);
    ForetoldAtStart(j, Init(cl), since, evs);
  }

  lemma NothingSince(j: Job, s: State, since: seq<seq<Op>>)
    requires ValidJob(j) && |s.hops| == |j.hops| == |since| && forall h :: 0 <= h < |since| ==> since[h] == []
    ensures Ahead(j, s, s, since)
  {
    hide SessionStep;
  }

  lemma ForetoldAtStart(j: Job, s: State, since: seq<seq<Op>>, evs: seq<Event>)
    requires |since| == |s.hops| && Describes(j, evs)
    requires forall h :: 0 <= h < |since| ==> since[h] == [] && s.hops[h].popped == 0
    ensures Foretold(j, s, since, evs)
  {
    hide Between, Describes;
    forall h, i: nat | 0 <= h < |s.hops|
      ensures j.strays(h, s.hops[h].popped + i) == (if i == 0 then since[h] else []) + Between(evs, h, i)
    {
      ForetoldOne(j, evs, h, i);
    }
  }

  lemma ForetoldOne(j: Job, evs: seq<Event>, h: nat, i: nat)
    requires Describes(j, evs)
    ensures j.strays(h, i) == [] + Between(evs, h, i)
  {
    hide Between;
  }

  /** Success among other connections.  Whatever reaches the hops' sessions between any two steps, a pipelined prefill
      that reports success left every hop at the prompt right after its last frame, in the very states of the
      plain loop among the same operations; and everyone still agrees at the end of the history if and only
      if, by the guards, what reached each hop since spared it or brought it back. */
  lemma AgreementAmongOthers(j: Job, lim: Limits, cl: Cluster, evs: seq<Event>, logits: Logits)
    requires ValidJob(j) && Precomputed(j) && ValidLimits(lim) && |cl.hops| == |j.hops|
    requires CoherentStrays(j) && Describes(j, evs) && ValidHistory(j, lim, Init(cl), evs)
    requires !j.reset ==> cl.local.tokens == j.prompt[..j.start] && AllHopsGrounded(cl)
    requires Succeeded(AfterAll(j, Init(cl), evs))
    ensures ValidRun(j, lim, Init(cl), Acts(evs))
    ensures var reached, end, tokens := ClusterOf(After(j, Init(cl), Acts(evs))),
      ClusterOf(AfterAll(j, Init(cl), evs)), j.prompt[..j.end];
      && Agrees(reached, tokens) && end == AtReturn(j, reached)
      && EvalSpans(j, cl, 0, logits).Some? && EvalSpans(j, cl, 0, logits).value.0 == reached
      && (Agrees(end, tokens) <==> forall h :: 0 <= h < |cl.hops| ==> Keeps(j, reached, tokens, h))
  {
    hide Inv, ValidRun, After, AfterAll, ValidHistory, EvalSpans, Precomputed, Agrees, AllHopsGrounded, CoherentStrays,
         Keeps, Found, Init, Describes, Foretold, Ahead;
    InitLen(cl);
    var since := StartOfHistory(j, cl, evs);
    HistoryIsARun(j, lim, Init(cl), Init(cl), since, evs);
    var s := After(j, Init(cl), Acts(evs));
    PipeliningPreservesMeaning(j, lim, cl, Acts(evs), logits);
    AllSpansAgree(j, cl, logits);
    ChunksCover(j, 0);
    CountIs(j);
    InitKeeps(j, lim, cl);
    EveryRunKeepsInv(j, lim, cl, Init(cl), Acts(evs));
    forall h | 0 <= h < |s.hops| ensures s.hops[h].popped == Count(j) {
      SuccessfulHop(j, lim, cl, s, h);
    }
    assert ClusterOf(AfterAll(j, Init(cl), evs)).hops == AtReturn(j, ClusterOf(s)).hops;
    AgreementAtReturn(j, ClusterOf(s), j.prompt[..j.end]);
  }

  lemma CountIs(j: Job)
    requires ValidJob(j) && Precomputed(j)
    ensures j.count == Count(j)
  {
  }

  lemma SameEnabled(j: Job, lim: Limits, s: State, t: State, act: Action)
    requires |s.hops| == |t.hops| == |j.hops| >= 1 && t == s.(hops := t.hops) && forall h ::
      0 <= h < |s.hops| ==> Alike(s.hops[h], t.hops[h])
    ensures Enabled(j, lim, s, act) == Enabled(j, lim, t, act) && IsFault(s, act) == IsFault(t, act)
  {
    hide EnabledMiddle, EnabledAny;
    match ActorOf(act) {
      case None => SameSocketGuards(j, lim, s, t, act);
      case Some(h) =>
        if h < |s.hops| {
          SameGuards(lim, s.hops[h], t.hops[h], if h + 1 < |s.hops| then Some(s.hops[h + 1]) else None,
                     if h + 1 < |s.hops| then Some(t.hops[h + 1]) else None, act);
        }
    }
  }

  lemma SameSocketGuards(j: Job, lim: Limits, s: State, t: State, act: Action)
    requires |s.hops| == |t.hops| >= 1 && t == s.(hops := t.hops) && Alike(s.hops[0], t.hops[0])
    ensures EnabledCoordinator(j, lim, s, act) == EnabledCoordinator(j, lim, t, act)
  {
  }

  /** And whatever other connections do, the pipeline's own steps are bounded and never get stuck. */
  lemma NeverSticksAmongOthers(j: Job, lim: Limits, cl: Cluster, evs: seq<Event>)
    requires ValidJob(j) && ValidLimits(lim) && |cl.hops| == |j.hops| && j.count > 0
    requires Describes(j, evs) && ValidHistory(j, lim, Init(cl), evs)
    ensures |Acts(evs)| <= Measure(j, Init(cl))
    ensures var t := AfterAll(j, Init(cl), evs);
      Finished(t) || exists act :: Enabled(j, lim, t, act) && !IsFault(t, act)
  {
    hide ValidRun, After, AfterAll, ValidHistory, Enabled, IsFault, Measure, Found, Init, Describes, Foretold, Ahead,
         Apply;
    InitLen(cl);
    var since := StartOfHistory(j, cl, evs);
    HistoryIsARun(j, lim, Init(cl), Init(cl), since, evs);
    var s, t := After(j, Init(cl), Acts(evs)), AfterAll(j, Init(cl), evs);
    PipelineNeverSticks(j, lim, cl, Acts(evs));
    if !Finished(s) {
      var act :| Enabled(j, lim, s, act) && !IsFault(s, act);
      SameEnabled(j, lim, s, t, act);
    }
  }
}
