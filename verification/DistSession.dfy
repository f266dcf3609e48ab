/** The coordinator session behind sync and decode: direct spans, the pipelined prefill, and recovery by
    replaying the transcript. */
module DistSession {
  import opened Wire
  import opened Engine
  import opened WorkerSessions
  import opened Prefill
  import opened Pipeline
  import opened PipelineTheorems
  import opened PipelineCalls
  import opened Agreement
  import RouteSearch
  import PlanCache

  /** A route in use: the slices of its hops and the state their sessions are in. */
  datatype Route = Route(engines: seq<SliceEngine>, sessions: seq<WorkerSession>, lastHasOutput: bool)

  /** What happens to the worker registry while a call is under way. */
  datatype Change = Joins(worker: RouteSearch.Worker) | Leaves(fd: nat)

  /** Everything outside the session that a call depends on; each attempt also says what other connections do to the
      sessions of its hops meanwhile. */
  datatype World = World(
    cap: nat,                   // tokens per chunk
    pipelining: bool,           // whether the route and the environment allow the pipelined prefill
    ackOnly: bool,
    firstRequest: nat,
    sessionOf: RouteSearch.Worker -> WorkerSession,      // what each worker holds for this session when the call starts
    up: bool,                   // whether the first connection of the planned route is up
    first: Attempt,
    meanwhile: seq<Change>,     // what happens to the worker registry during the first attempt
    sessionLater: RouteSearch.Worker -> WorkerSession,   // what each worker holds when a new route is taken
    second: Attempt)

  /** The sessions are as any history of coherent frames leaves them, and whoever registers passed the handshake. */
  ghost predicate WorldOk(c: RouteSearch.Coordinator, w: World) {
    && w.cap >= 1
    && (forall x :: Grounded(w.sessionOf(x))) && (forall x :: Grounded(w.sessionLater(x)))
    && (forall i :: 0 <= i < |w.meanwhile| && w.meanwhile[i].Joins? ==> RouteSearch.Accepted(c, w.meanwhile[i].worker))
    && CoherentAttempt(w.first) && CoherentAttempt(w.second)
  }

  ghost predicate CoherentAttempt(a: Attempt) {
    forall h: nat, i: nat :: AllCoherent(a.strays(h, i))
  }

  class DistSession {
    const slice: SliceEngine
    const wire: Hidden -> Hidden
    const head: (Hidden, nat) -> Logits
    const session: U64
    const engineOf: RouteSearch.Worker -> SliceEngine
    const planner: PlanCache.Planner
    var local: EngineSession
    var route: Option<Route>
    var up: bool

    /** The session owns its planner; a coordinator that runs all layers alone needs no route. */
    ghost predicate Valid()
      reads planner
    {
      planner.Valid() && !RouteSearch.CoversAlone(planner.c)
    }

    constructor (slice: SliceEngine, wire: Hidden -> Hidden, head: (Hidden, nat) -> Logits, session: U64,
                 engineOf: RouteSearch.Worker -> SliceEngine, c: RouteSearch.Coordinator)
      requires c.nLayers >= 1 && c.localEnd < c.nLayers && !RouteSearch.CoversAlone(c)
      ensures Valid() && fresh(planner) && planner.c == c && planner.workers == [] && !planner.planReady && route.None?
    {
      this.slice, this.wire, this.head, this.session, this.engineOf := slice, wire, head, session, engineOf;
      planner := new PlanCache.Planner(c);
      local := EngineSession([], false, slice.emptyKv);
      route, up := None, false;
    }

    /** A route over planned workers. */
    function RouteOver(plan: seq<RouteSearch.Worker>, sessionOf: RouteSearch.Worker -> WorkerSession): Route {
      Route(seq(|plan|, h requires 0 <= h < |plan| => engineOf(plan[h])),
            seq(|plan|, h requires 0 <= h < |plan| => sessionOf(plan[h])),
            plan != [] && plan[|plan| - 1].hasOutput)
    }

    /** The route in hand runs over the workers of the plan in hand, which are registered in such a way that they form a
        complete route, or were when the plan was made. */
    ghost predicate OnPlan()
      reads this`route, planner
    {
      && planner.planReady && route.Some? && planner.c.nLayers >= 1
      && RouteSearch.PlanFits(planner.c, planner.planWorkers, RouteSearch.Plan(planner.plan))
      && |route.value.sessions| == |route.value.engines| == |planner.plan| >= 1
      && (forall h :: 0 <= h < |planner.plan| ==> route.value.engines[h] == engineOf(planner.plan[h]))
      && (route.value.lastHasOutput <==> planner.plan[|planner.plan| - 1].hasOutput)
    }

    /** The coordinator's session, and the sessions of the route in hand. */
    function Now(): Cluster
      reads this`local, this`route
      requires route.Some?
    {
      Cluster(local, route.value.sessions)
    }

    function JobFor(w: World, prompt: seq<int>, start: nat, reset: bool, strays: (nat, nat) -> seq<Op>): (j: Job)
      reads this
      requires route.Some?
    {
      Job(slice, route.value.engines, wire, head, route.value.lastHasOutput, prompt, start, |prompt|, w.cap, reset,
          w.ackOnly, session, w.firstRequest, 0, [], strays)
    }

    /** Two routes over the same slices, perhaps with other sessions. */
    ghost predicate SameSlices(a: Route, b: Route) {
      a.engines == b.engines && a.lastHasOutput == b.lastHasOutput && |b.sessions| == |b.engines|
    }

    /** Installs what an attempt left behind. */
    method Settle(cl: Cluster)
      requires route.Some? && |cl.hops| == |route.value.engines|
      modifies this`local, this`route
      ensures route.Some? && Now() == cl && SameSlices(old(route.value), route.value)
    {
      local := cl.local;
      route := Some(route.value.(sessions := cl.hops));
    }

    /** What an attempt that worked has done: everyone stood at the prompt right after their last frames, and what is
        there now is what other connections have made of it since. */
    ghost predicate Settled(j: Job, reached: Cluster)
      reads this`local, this`route
    {
      && route.Some? && ValidJob(j) && |reached.hops| == |j.hops| && j.hops == route.value.engines
        && j.session == session
      && Agrees(reached, j.prompt[..j.end])
      && Now() == AtReturn(j, reached)
    }

    /** The job that the session runs: over its own slice, its wire, its head and the route in hand. */
    ghost predicate Ours(j: Job, w: World, prompt: seq<int>, start: nat, reset: bool)
      reads this`route
    {
      && route.Some?
      && j.local == slice && j.wire == wire && j.head == head && j.hops == route.value.engines
      && j.lastHasOutput == route.value.lastHasOutput
      && j.prompt == prompt && j.start == start && j.end == |prompt| && j.reset == reset
      && j.cap == w.cap && j.ackOnly == w.ackOnly && j.session == session && j.firstRequest == w.firstRequest
    }

    /** The pipelined prefill; a world without a complete run of the pipeline counts as a failure. */
    method PipelinedAttempt(j: Job, a: Attempt, logits0: Logits) returns (rc: nat, reached: Cluster, logits: Logits)
      requires route.Some? && ValidJob(j) && Precomputed(j) && CoherentStrays(j)
      requires j.hops == route.value.engines && |j.hops| == |route.value.sessions| && j.session == session
      requires !j.reset ==> local.tokens == j.prompt[..j.start] && AllHopsGrounded(Now())
      modifies this`local, this`route, this`up
      ensures route.Some? && SameSlices(old(route.value), route.value)
      ensures rc == 0 ==> Settled(j, reached) && Computes(j, old(Now()), reached, logits)
      ensures !old(up) || rc == 2 ==> rc != 0 && !up
      ensures Returns(j, old(Now()), old(up), true, a, rc)
    {
      hide Agrees, AllHopsGrounded, EvalSpans, Completes, Precomputed, CoherentStrays, After, Succeeded, ClusterOf,
           Start, EndsInRemoteError, Found;
      var cl := Now();
      if !Completes(j, cl, up, a.lim, a.run) {
        up := false;
        return 1, cl, logits0;
      }
      logits := logits0;
      var s := After(j, Start(cl, up), a.run);
      rc := PipelineCode(s, a);
      if !Succeeded(s) {
        FailureShutsDown(j, cl, up, a.lim, a.run);
      } else {
        if !up { DeadConnectionNeverSucceeds(j, cl, a.lim, a.run); }
        PipelinedIsPlain(j, cl, up, a.lim, a.run, logits0);
        AllSpansAgree(j, cl, logits0);
        ChunkCount(j);
        logits := ResultOf(j, s);
        ResetForgets(j, cl, cl, logits0, logits);
      }
      ClusterSize(s);
      reached := ClusterOf(s);
      Settle(AtReturn(j, reached));
      up := s.hops[0].link.open;
    }

    method DirectSpans(j: Job, a: Attempt, logits0: Logits)
      returns (rc: nat, reached: Cluster, logits: Logits)
      requires route.Some? && ValidJob(j) && CoherentStrays(j)
      requires j.hops == route.value.engines && |j.hops| == |route.value.sessions| && j.session == session
      requires !j.reset ==> local.tokens == j.prompt[..j.start] && AllHopsGrounded(Now())
      modifies this`local, this`route
      ensures route.Some? && SameSlices(old(route.value), route.value)
      ensures rc == 0 ==> Settled(j, reached) && Computes(j, old(Now()), reached, logits)
      ensures Returns(j, old(Now()), old(up), false, a, rc)
    {
      hide Agrees, AllHopsGrounded, CoherentStrays, EvalSpans, FatedSpans, Found;
      var cl := Now();
      if !FatesFit(j, a.fates) {
        return 1, cl, logits0;
      }
      rc, reached, logits := DirectAttempt(j, cl, a.fates, logits0);
      forall last { SameCode(j, cl, 0, a.fates, logits0, last); }
      if rc == 0 {
        AllSpansAgree(j, cl, logits0);
        ResetForgets(j, cl, cl, logits0, logits);
      }
      Settle(AtReturn(j, reached));
    }

    /** One attempt to run prompt[start..] through the route in hand, pipelined when that is possible. */
    method RunPrefill(w: World, prompt: seq<int>, start: nat, reset: bool, a: Attempt, logits0: Logits)
      returns (rc: nat, j: Job, reached: Cluster, logits: Logits)
      requires w.cap >= 1 && start < |prompt| && (reset ==> start == 0) && CoherentAttempt(a)
      requires route.Some? && |route.value.engines| == |route.value.sessions| >= 1
      requires reset || (local.tokens == prompt[..start] && AllHopsGrounded(Now()))
      modifies this`local, this`route, this`up
      ensures route.Some? && SameSlices(old(route.value), route.value)
      ensures Ours(j, w, prompt, start, reset) && j.strays == a.strays
      ensures rc == 0 ==> Settled(j, reached) && Computes(j, old(Now()), reached, logits)
      ensures w.pipelining && |prompt| - start > w.cap && (!old(up) || rc == 2) ==> rc != 0 && !up
      ensures Returns(j, old(Now()), old(up), w.pipelining && |prompt| - start > w.cap, a, rc)
    {
      hide Settled, AllHopsGrounded, EvalSpans, Precomputed, CoherentAttempt, Returns;
      j := JobFor(w, prompt, start, reset, a.strays);
      CoherentJob(j, a);
      if w.pipelining && |prompt| - start > w.cap {
        var hashes := ExpectedHashes(j);
        j := j.(count := Count(j), hashes := hashes);
        CoherentJob(j, a);
        rc, reached, logits := PipelinedAttempt(j, a, logits0);
      } else {
        rc, reached, logits := DirectSpans(j, a, logits0);
      }
    }

    /** The registry goes its own way while a call is under way. */
    method RegistryMoves(changes: seq<Change>)
      requires Valid() && forall i ::
        0 <= i < |changes| && changes[i].Joins? ==> RouteSearch.Accepted(planner.c, changes[i].worker)
      modifies planner
      ensures Valid() && planner.planReady == old(planner.planReady) && planner.plan == old(planner.plan)
      ensures planner.planWorkers == old(planner.planWorkers)
    {
      hide RouteSearch.PlanFits, RouteSearch.AllAccepted, RouteSearch.Accepted, PlanCache.Distinct;
      for i := 0 to |changes|
        invariant Valid() && planner.planReady == old(planner.planReady) && planner.plan == old(planner.plan)
        invariant planner.planWorkers == old(planner.planWorkers)
      {
        match changes[i] {
          case Joins(worker) => planner.AddWorker(worker);
          case Leaves(fd) => planner.RemoveWorker(fd);
        }
      }
    }

    /** Takes a route over the plan in hand. */
    method TakeRoute(sessionOf: RouteSearch.Worker -> WorkerSession, up: bool)
      requires Valid() && planner.planReady && forall x :: Grounded(sessionOf(x))
      modifies this`route, this`up
      ensures OnPlan() && Held(planner.plan, Now(), local, sessionOf) && this.up == up
      ensures forall h :: 0 <= h < |route.value.sessions| ==> Grounded(route.value.sessions[h])
    {
      hide Grounded;
      PlanHasHops(planner.c, planner.planWorkers, planner.plan);
      route, this.up := Some(RouteOver(planner.plan, sessionOf)), up;
    }

    /** Forgets the failed route and takes one over a new plan. */
    method NewRoute(w: World) returns (ok: bool)
      requires Valid() && WorldOk(planner.c, w)
      modifies this`route, this`up, planner
      ensures Valid() && ok == planner.planReady
      ensures ok ==> OnPlan() && RouteSearch.PlanFits(planner.c, planner.workers, RouteSearch.Plan(planner.plan))
      ensures ok ==> forall hop, x :: hop in old(planner.plan) && x in planner.plan ==> !PlanCache.Matches(hop, x)
      ensures !ok ==> route == old(route)
    {
      hide Grounded, RouteOver, CoherentAttempt, RouteSearch.PlanFits, RouteSearch.AllAccepted, RouteSearch.Accepted,
           PlanCache.Distinct, PlanCache.Matches;
      planner.ForgetRoute();
      ok := planner.Replan();
      if ok {
        PlanIsRegistered(planner.c, planner.workers, planner.plan);
        TakeRoute(w.sessionLater, true);
      }
    }

    /** Replays the whole transcript with a reset, over a new plan unless a worker answered with an error.  A new
        plan is a route over the workers registered now, and uses none of the registrations that the failed route
        went over. */
    method Rebuild(w: World, prompt: seq<int>, code: nat, logits0: Logits)
      returns (rc: nat, j: Job, reached: Cluster, logits: Logits)
      requires Valid() && WorldOk(planner.c, w) && |prompt| > 0 && OnPlan()
      modifies this, planner
      ensures Valid()
      ensures rc == 0 ==> OnPlan() && Settled(j, reached)
      ensures rc == 0
        ==> Ours(j, w, prompt, 0, true) && j.strays == w.second.strays && AlwaysComputes(j, reached, logits)
      ensures rc == 0 && code == 2 ==> planner.plan == old(planner.plan)
      ensures rc == 0 && code != 2 ==> forall hop, x ::
        hop in old(planner.plan) && x in planner.plan ==> !PlanCache.Matches(hop, x)
      ensures rc == 0 && code != 2 ==> RouteSearch.PlanFits(planner.c, planner.workers, RouteSearch.Plan(planner.plan))
      ensures rc != 0 ==> rc == 1 && !planner.planReady
      ensures w.pipelining && |prompt| > w.cap && code == 2 && !old(up) ==> rc != 0
    {
      hide Settled, CoherentAttempt, Grounded, RouteOver, Returns, Held, Computes, AlwaysComputes, RouteSearch.PlanFits,
           RouteSearch.AllAccepted, RouteSearch.Accepted, PlanCache.Distinct, PlanCache.Matches;
      if code != 2 {
        var ok := NewRoute(w);
        if !ok {
          j := JobFor(w, prompt, 0, true, w.second.strays);
          return 1, j, Now(), logits0;
        }
      }
      ghost var from := Now();
      rc, j, reached, logits := RunPrefill(w, prompt, 0, true, w.second, logits0);
      if rc == 0 { FromAnywhere(j, from, reached, logits); }
      planner.Replayed(rc == 0);
      rc := if rc == 0 then 0 else 1;
    }

    /** The plan in hand, or a new one; without a route over the registered workers the call fails. */
    method EnsureRoute(w: World) returns (ok: bool)
      requires Valid() && WorldOk(planner.c, w)
      modifies this`route, this`up, planner
      ensures Valid() && planner.workers == old(planner.workers) && ok == planner.planReady
      ensures ok ==> OnPlan() && Held(planner.plan, Now(), local, w.sessionOf) && up == w.up
      ensures ok ==> forall h :: 0 <= h < |route.value.sessions| ==> Grounded(route.value.sessions[h])
      ensures ok && old(planner.changes - planner.planChanges) < TWO64 ==>
        RouteSearch.PlanFits(planner.c, planner.workers, RouteSearch.Plan(planner.plan))
      ensures !ok ==> exists r: RouteSearch.PlanResult ::
        !r.Plan? && RouteSearch.PlanFits(planner.c, planner.workers, r)
      ensures planner.changes == old(planner.changes)
    {
      hide Grounded, RouteOver, RouteSearch.PlanFits, RouteSearch.AllAccepted, PlanCache.Distinct, CoherentAttempt;
      ok := planner.EnsureRoute();
      if ok {
        TakeRoute(w.sessionOf, w.up);
      }
    }

    /** Whether a sync only has to extend the checkpoint. */
    predicate Extends(prompt: seq<int>)
      reads this
    {
      local.live && local.tokens <= prompt
    }

    /** Sync.  When it returns 0 it either had nothing to do, or everyone stood at the whole prompt right after
        their last frames; they still do when the call returns exactly if, by the guards, what other connections did
        to each hop since then spared it or brought it back.  A pipelined prefill that ended in a remote error is
        never recovered: its connection is shut down, and the replay keeps using it. */
    method Sync(w: World, prompt: seq<int>, logits0: Logits)
      returns (rc: nat, dispatched: bool, first: nat, j: Job, reached: Cluster, logits: Logits)
      requires Valid() && WorldOk(planner.c, w) && |prompt| > 0
      modifies this, planner
      ensures Valid() && (rc == 0 ==> OnPlan())
      ensures rc == 0 && dispatched ==> Settled(j, reached) && Agrees(reached, prompt)
      ensures rc == 0 && dispatched && first == 0 ==>
        && (if old(local.live && local.tokens <= prompt) then Ours(j, w, prompt, old(|local.tokens|), false)
            else Ours(j, w, prompt, 0, true))
        && j.strays == w.first.strays
        && ComputesFrom(planner.plan, old(local), w.sessionOf, j, reached, logits)
      ensures rc == 0 && dispatched && first != 0 ==>
        Ours(j, w, prompt, 0, true) && j.strays == w.second.strays && AlwaysComputes(j, reached, logits)
      ensures rc == 0 && dispatched
        ==> (Agrees(Now(), prompt) <==> forall h :: 0 <= h < |reached.hops| ==> Keeps(j, reached, prompt, h))
      ensures rc == 0 && !dispatched
        ==> local == old(local) && local.live && local.tokens == prompt && logits == logits0
      ensures rc == 0 && (first == 0 || first == 2) && old(planner.changes - planner.planChanges) < TWO64 ==>
        RouteSearch.PlanFits(planner.c, old(planner.workers), RouteSearch.Plan(planner.plan))
      ensures rc == 0 && first != 0 && first != 2 ==>
        RouteSearch.PlanFits(planner.c, planner.workers, RouteSearch.Plan(planner.plan))
      ensures !dispatched && rc != 0 ==>
        exists r: RouteSearch.PlanResult :: !r.Plan? && RouteSearch.PlanFits(planner.c, old(planner.workers), r)
      ensures rc != 0 ==> rc == 1 && !planner.planReady
      ensures rc == 0 || dispatched ==> (dispatched <==> old(!(local.live && local.tokens == prompt)))
      ensures first == 2 && w.pipelining && rc == 0 ==>
        |prompt| - (if old(local.live && local.tokens <= prompt) then old(|local.tokens|) else 0) <= w.cap
    {
      hide Agrees, AllHopsGrounded, Grounded, Settled, Keeps, CoherentAttempt, Held, ComputesFrom, Computes,
           AlwaysComputes, RouteOver, Returns, RouteSearch.PlanFits, RouteSearch.AllAccepted, RouteSearch.Accepted,
           PlanCache.Distinct;
      dispatched, first := false, 0;
      j, reached, logits := NoJob(), Cluster(local, []), logits0;
      var ok := EnsureRoute(w);
      if !ok {
        return 1, false, 0, j, reached, logits;
      }
      GroundedRoute(route.value, local);
      var start := 0;
      var reset := true;
      if Extends(prompt) {
        if |local.tokens| == |prompt| {
          assert local.tokens == prompt;
          return 0, false, 0, j, reached, logits;
        }
        start, reset := |local.tokens|, false;
        assert local.tokens == prompt[..start];
      }
      dispatched := true;
      ghost var from := Now();
      rc, j, reached, logits := RunPrefill(w, prompt, start, reset, w.first, logits0);
      if rc == 0 { FromHeld(planner.plan, from, old(local), w.sessionOf, j, reached, logits); }
      first := rc;
      RegistryMoves(w.meanwhile);
      if rc != 0 {
        rc, j, reached, logits := Rebuild(w, prompt, rc, logits0);
      }
      if rc == 0 {
        SettledAtReturn(j, reached, prompt);
      }
    }

    /** A job for a call that dispatches nothing. */
    function NoJob(): Job
      reads this
    {
      Job(slice, [], wire, head, false, [], 0, 0, 0, false, false, session, 0, 0, [], (h, i) => [])
    }

    lemma SettledAtReturn(j: Job, reached: Cluster, prompt: seq<int>)
      requires Settled(j, reached) && j.prompt == prompt && j.end == |prompt|
      ensures Agrees(reached, prompt)
      ensures Agrees(Now(), prompt) <==> forall h :: 0 <= h < |reached.hops| ==> Keeps(j, reached, prompt, h)
    {
      hide Agrees, Keeps, AtReturn;
      assert prompt[..|prompt|] == prompt;
      AgreementAtReturn(j, reached, prompt);
    }

    /** Decode of one token after a valid checkpoint. */
    method Eval(w: World, token: int, logits0: Logits)
      returns (rc: nat, first: nat, j: Job, reached: Cluster, logits: Logits)
      requires Valid() && WorldOk(planner.c, w) && local.live
      modifies this, planner
      ensures Valid() && (rc == 0 ==> OnPlan())
      ensures rc == 0 ==> Settled(j, reached) && Agrees(reached, j.prompt)
      ensures rc == 0 && first == 0 ==>
        && Ours(j, w, old(local.tokens) + [token], old(|local.tokens|), false) && j.strays == w.first.strays
        && ComputesFrom(planner.plan, old(local), w.sessionOf, j, reached, logits)
      ensures rc == 0 && first != 0 ==>
        && Ours(j, w, old(local.tokens) + [token], 0, true) && j.strays == w.second.strays
        && AlwaysComputes(j, reached, logits)
      ensures rc == 0
        ==> (Agrees(Now(), j.prompt) <==> forall h :: 0 <= h < |reached.hops| ==> Keeps(j, reached, j.prompt, h))
      ensures rc == 0 && (first == 0 || first == 2) && old(planner.changes - planner.planChanges) < TWO64 ==>
        RouteSearch.PlanFits(planner.c, old(planner.workers), RouteSearch.Plan(planner.plan))
      ensures rc == 0 && first != 0 && first != 2 ==>
        RouteSearch.PlanFits(planner.c, planner.workers, RouteSearch.Plan(planner.plan))
      ensures rc != 0 ==> rc == 1 && !planner.planReady
    {
      hide Agrees, AllHopsGrounded, Grounded, Settled, Keeps, CoherentAttempt, Held, ComputesFrom, Computes,
           AlwaysComputes, RouteOver, Returns, RouteSearch.PlanFits, RouteSearch.AllAccepted, RouteSearch.Accepted,
           PlanCache.Distinct;
      var prompt := local.tokens + [token];
      j, reached, logits := NoJob(), Cluster(local, []), logits0;
      var ok := EnsureRoute(w);
      if !ok {
        return 1, 1, j, reached, logits;
      }
      GroundedRoute(route.value, local);
      j := JobFor(w, prompt, |local.tokens|, false, w.first.strays);
      CoherentJob(j, w.first);
      assert local.tokens == prompt[..j.start];
      ghost var from := Now();
      rc, reached, logits := DirectSpans(j, w.first, logits0);
      if rc == 0 { FromHeld(planner.plan, from, old(local), w.sessionOf, j, reached, logits); }
      first := rc;
      RegistryMoves(w.meanwhile);
      if rc != 0 {
        rc, j, reached, logits := Rebuild(w, prompt, rc, logits0);
      }
      if rc == 0 {
        SettledAtReturn(j, reached, prompt);
      }
    }
  }

  /** There is a fate for every span and every hop. */
  predicate FatesFit(j: Job, fates: seq<SpanFate>)
    requires ValidJob(j)
  {
    |fates| == Count(j) && forall i :: 0 <= i < |fates| ==> |fates[i].hops| == |j.hops|
  }

  /** The return code of an attempt: of the run of the pipeline, or of the first span of the direct loop that failed. */
  ghost predicate Returns(j: Job, from: Cluster, up: bool, pipelined: bool, a: Attempt, rc: nat) {
    && ValidJob(j) && |from.hops| == |j.hops|
    && if pipelined then
         rc == if Completes(j, from, up, a.lim, a.run) then PipelineCode(After(j, Start(from, up), a.run), a) else 1
       else forall last :: rc == if FatesFit(j, a.fates) then FatedSpans(j, from, 0, a.fates, last).0 else 1
  }

  /** From a state of the cluster the plain loop reaches another one, with these logits. */
  ghost predicate Computes(j: Job, from: Cluster, reached: Cluster, logits: Logits) {
    ValidJob(j) && |from.hops| == |j.hops| && EvalSpans(j, from, 0, logits) == Some((reached, logits))
  }

  /** And does so from every state, as a call that resets does. */
  ghost predicate AlwaysComputes(j: Job, reached: Cluster, logits: Logits) {
    forall from: Cluster :: |from.hops| == |j.hops| ==> Computes(j, from, reached, logits)
  }

  /** The state of the cluster when every worker of a plan holds what it is said to hold. */
  ghost predicate Held(plan: seq<RouteSearch.Worker>, cl: Cluster, local: EngineSession,
                       sessionOf: RouteSearch.Worker -> WorkerSession) {
    && cl.local == local && |cl.hops| == |plan|
    && forall h :: 0 <= h < |plan| ==> cl.hops[h] == sessionOf(plan[h])
  }

  ghost predicate ComputesFrom(plan: seq<RouteSearch.Worker>, local: EngineSession,
                               sessionOf: RouteSearch.Worker -> WorkerSession, j: Job, reached: Cluster,
                                 logits: Logits) {
    forall from :: Held(plan, from, local, sessionOf) ==> Computes(j, from, reached, logits)
  }

  lemma FromHeld(plan: seq<RouteSearch.Worker>, from: Cluster, local: EngineSession,
                 sessionOf: RouteSearch.Worker -> WorkerSession, j: Job, reached: Cluster, logits: Logits)
    requires Held(plan, from, local, sessionOf) && Computes(j, from, reached, logits)
    ensures ComputesFrom(plan, local, sessionOf, j, reached, logits)
  {
    hide EvalSpans;
    forall other | Held(plan, other, local, sessionOf) ensures Computes(j, other, reached, logits) {
      assert other.hops == from.hops;
    }
  }

  lemma FromAnywhere(j: Job, from: Cluster, reached: Cluster, logits: Logits)
    requires Computes(j, from, reached, logits) && j.reset
    ensures AlwaysComputes(j, reached, logits)
  {
    hide EvalSpans;
    forall other: Cluster | |other.hops| == |j.hops| ensures Computes(j, other, reached, logits) {
      ResetForgets(j, from, other, logits, logits);
    }
  }

  lemma ChunkCount(j: Job)
    requires ValidJob(j) && Precomputed(j)
    ensures j.count > 0
  {
    ChunksCover(j, 0);
  }

  lemma CoherentJob(j: Job, a: Attempt)
    requires CoherentAttempt(a) && j.strays == a.strays
    ensures CoherentStrays(j)
  {
  }

  lemma GroundedRoute(r: Route, local: EngineSession)
    requires forall h :: 0 <= h < |r.sessions| ==> Grounded(r.sessions[h])
    ensures AllHopsGrounded(Cluster(local, r.sessions))
  {
  }

  /** A plan for a coordinator that does not run all layers alone has hops. */
  lemma PlanHasHops(c: RouteSearch.Coordinator, ws: seq<RouteSearch.Worker>, plan: seq<RouteSearch.Worker>)
    requires c.nLayers >= 1 && RouteSearch.PlanFits(c, ws, RouteSearch.Plan(plan)) && !RouteSearch.CoversAlone(c)
    ensures |plan| >= 1
  {
  }

  /** And all of them are registered. */
  lemma PlanIsRegistered(c: RouteSearch.Coordinator, ws: seq<RouteSearch.Worker>, plan: seq<RouteSearch.Worker>)
    requires c.nLayers >= 1 && RouteSearch.PlanFits(c, ws, RouteSearch.Plan(plan)) && !RouteSearch.CoversAlone(c)
    ensures forall x :: x in plan ==> x in ws
  {
    RouteIsRegistered(c, ws, plan, c.localEnd + 1, c.nLayers - 1);
  }

  lemma {:induction false} RouteIsRegistered(c: RouteSearch.Coordinator, ws: seq<RouteSearch.Worker>,
                                             route: seq<RouteSearch.Worker>, next: nat, last: nat)
    requires RouteSearch.IsRoute(c, ws, route, next, last)
    ensures forall x :: x in route ==> x in ws
    decreases |route|
  {
    assert route == [route[0]] + route[1..];
    if route[0].layerEnd < last {
      RouteIsRegistered(c, ws, route[1..], route[0].layerEnd + 1, last);
    }
  }

  lemma ClusterSize(s: State)
    ensures |ClusterOf(s).hops| == |s.hops|
  {
  }
}
