/** The worker registry and the route plan that a session caches against its change counter. */
module PlanCache {
  import opened Wire
  import opened RouteSearch

  // ---------------------------------------------------------------- registry changes

  /** A new registration displaces entries of the same host for the same slice. */
  predicate Displaces(w: Worker, v: Worker) {
    v.host == w.host && v.layerStart == w.layerStart && v.layerEnd == w.layerEnd && v.hasOutput == w.hasOutput
  }

  predicate Matches(hop: Worker, w: Worker) {
    hop.port == w.port && Displaces(hop, w)
  }

  function Kept(ws: seq<Worker>, w: Worker): seq<Worker> {
    if ws == [] then [] else (if Displaces(w, ws[0]) then [] else [ws[0]]) + Kept(ws[1..], w)
  }

  function WithoutFd(ws: seq<Worker>, fd: nat): seq<Worker> {
    if ws == [] then []
    else if ws[0].fd == fd then ws[1..]
    else [ws[0]] + WithoutFd(ws[1..], fd)
  }

  function WithoutHop(ws: seq<Worker>, hop: Worker): seq<Worker> {
    if ws == [] then []
    else if Matches(hop, ws[0]) then ws[1..]
    else [ws[0]] + WithoutHop(ws[1..], hop)
  }

  function WithoutRoute(ws: seq<Worker>, route: seq<Worker>): seq<Worker>
    decreases |route|
  {
    if route == [] then ws else WithoutRoute(WithoutHop(ws, route[0]), route[1..])
  }

  /** No host is registered twice for the same slice. */
  predicate Distinct(ws: seq<Worker>) {
    forall i, k :: 0 <= i < k < |ws| ==> !Displaces(ws[i], ws[k])
  }

  /** Sub is ws with some entries taken out. */
  predicate Thinned(ws: seq<Worker>, sub: seq<Worker>) {
    if ws == [] then sub == []
    else (sub != [] && sub[0] == ws[0] && Thinned(ws[1..], sub[1..])) || Thinned(ws[1..], sub)
  }

  lemma {:induction false} ThinnedKeeps(c: Coordinator, ws: seq<Worker>, sub: seq<Worker>)
    requires Thinned(ws, sub)
    ensures forall w :: w in sub ==> w in ws
    ensures Distinct(ws) ==> Distinct(sub)
    ensures AllAccepted(c, ws) ==> AllAccepted(c, sub)
    ensures |sub| <= |ws| && (|sub| == |ws| ==> sub == ws)
  {
    if ws != [] {
      if sub != [] && sub[0] == ws[0] && Thinned(ws[1..], sub[1..]) {
        ThinnedKeeps(c, ws[1..], sub[1..]);
        HeadTail(c, ws);
        HeadTail(c, sub);
      } else {
        ThinnedKeeps(c, ws[1..], sub);
        HeadTail(c, ws);
      }
    }
  }

  lemma HeadTail(c: Coordinator, ws: seq<Worker>)
    requires ws != []
    ensures ws == [ws[0]] + ws[1..]
    ensures Distinct(ws) <==> Distinct(ws[1..]) && forall w :: w in ws[1..] ==> !Displaces(ws[0], w)
    ensures AllAccepted(c, ws) <==> AllAccepted(c, ws[1..]) && Accepted(c, ws[0])
  {
    hide Displaces, Accepted, Distinct;
    DistinctHeadTail(ws);
    assert forall i :: 1 <= i < |ws| ==> ws[i] == ws[1..][i - 1];
  }

  lemma DistinctHeadTail(ws: seq<Worker>)
    requires ws != []
    ensures Distinct(ws) <==> Distinct(ws[1..]) && forall w :: w in ws[1..] ==> !Displaces(ws[0], w)
  {
    hide Displaces;
    var t := ws[1..];
    if Distinct(ws) {
      assert forall i :: 0 <= i < |t| ==> t[i] == ws[i + 1];
    }
    if Distinct(t) && forall w :: w in t ==> !Displaces(ws[0], w) {
      assert forall i :: 1 <= i < |ws| ==> ws[i] == t[i - 1];
      assert forall k :: 0 < k < |ws| ==> !Displaces(ws[0], ws[k]);
    }
  }

  lemma {:induction false} ThinnedSelf(ws: seq<Worker>)
    ensures Thinned(ws, ws)
  {
    if ws != [] { ThinnedSelf(ws[1..]); }
  }

  lemma {:induction false} ThinnedTwice(ws: seq<Worker>, a: seq<Worker>, b: seq<Worker>)
    requires Thinned(ws, a) && Thinned(a, b)
    ensures Thinned(ws, b)
  {
    if ws != [] {
      if a != [] && a[0] == ws[0] && Thinned(ws[1..], a[1..]) {
        if b != [] && b[0] == a[0] && Thinned(a[1..], b[1..]) {
          ThinnedTwice(ws[1..], a[1..], b[1..]);
        } else {
          ThinnedTwice(ws[1..], a[1..], b);
        }
      } else {
        ThinnedTwice(ws[1..], a, b);
      }
    }
  }

  lemma {:induction false} KeptThins(ws: seq<Worker>, w: Worker)
    ensures Thinned(ws, Kept(ws, w))
    ensures forall v :: v in Kept(ws, w) <==> v in ws && !Displaces(w, v)
  {
    if ws != [] {
      KeptThins(ws[1..], w);
      assert ([ws[0]] + Kept(ws[1..], w))[1..] == Kept(ws[1..], w);
      assert [] + Kept(ws[1..], w) == Kept(ws[1..], w);
    }
  }

  lemma {:induction false} WithoutFdThins(ws: seq<Worker>, fd: nat)
    ensures Thinned(ws, WithoutFd(ws, fd))
  {
    if ws != [] {
      ThinnedSelf(ws[1..]);
      WithoutFdThins(ws[1..], fd);
      assert ([ws[0]] + WithoutFd(ws[1..], fd))[1..] == WithoutFd(ws[1..], fd);
    }
  }

  lemma {:induction false} WithoutHopThins(ws: seq<Worker>, hop: Worker)
    ensures Thinned(ws, WithoutHop(ws, hop))
  {
    if ws != [] {
      ThinnedSelf(ws[1..]);
      WithoutHopThins(ws[1..], hop);
      assert ([ws[0]] + WithoutHop(ws[1..], hop))[1..] == WithoutHop(ws[1..], hop);
    }
  }

  lemma {:induction false} WithoutRouteThins(ws: seq<Worker>, route: seq<Worker>)
    ensures Thinned(ws, WithoutRoute(ws, route))
    decreases |route|
  {
    if route == [] {
      ThinnedSelf(ws);
    } else {
      WithoutHopThins(ws, route[0]);
      WithoutRouteThins(WithoutHop(ws, route[0]), route[1..]);
      ThinnedTwice(ws, WithoutHop(ws, route[0]), WithoutRoute(ws, route));
    }
  }

  /** In a registry without double registrations, forgetting a hop leaves nobody who matches it. */
  lemma {:induction false} HopIsGone(ws: seq<Worker>, hop: Worker)
    requires Distinct(ws)
    ensures forall w :: w in WithoutHop(ws, hop) ==> !Matches(hop, w)
  {
    if ws != [] {
      HeadTail(Coordinator(0, 0, 0, false, false), ws);
      if !Matches(hop, ws[0]) {
        HopIsGone(ws[1..], hop);
      }
    }
  }

  /** After a failed route is forgotten none of its hops can be found again. */
  lemma {:induction false} ForgottenRouteIsGone(ws: seq<Worker>, route: seq<Worker>)
    requires Distinct(ws)
    ensures forall hop, w :: hop in route && w in WithoutRoute(ws, route) ==> !Matches(hop, w)
    decreases |route|
  {
    if route != [] {
      var c := Coordinator(0, 0, 0, false, false);
      var rest := WithoutHop(ws, route[0]);
      HopIsGone(ws, route[0]);
      WithoutHopThins(ws, route[0]);
      ThinnedKeeps(c, ws, rest);
      ForgottenRouteIsGone(rest, route[1..]);
      WithoutRouteThins(rest, route[1..]);
      ThinnedKeeps(c, rest, WithoutRoute(rest, route[1..]));
    }
  }

  lemma {:induction false} OthersStay(ws: seq<Worker>, hop: Worker, w: Worker)
    requires w in ws && !Matches(hop, w)
    ensures w in WithoutHop(ws, hop)
  {
    hide Matches;
    if !Matches(hop, ws[0]) && w != ws[0] { OthersStay(ws[1..], hop, w); }
  }

  lemma {:induction false} OffRouteStays(ws: seq<Worker>, route: seq<Worker>, w: Worker)
    requires w in ws && forall hop :: hop in route ==> !Matches(hop, w)
    ensures w in WithoutRoute(ws, route)
    decreases |route|
  {
    hide Matches;
    if route != [] {
      OthersStay(ws, route[0], w);
      OffRouteStays(WithoutHop(ws, route[0]), route[1..], w);
    }
  }

  /** Forgetting a route takes out exactly the registrations that have the address, the slice and the output flag of
      one of its hops. */
  lemma ForgottenAreTheHops(ws: seq<Worker>, route: seq<Worker>, w: Worker)
    requires Distinct(ws)
    ensures w in WithoutRoute(ws, route) <==> w in ws && forall hop :: hop in route ==>
      !(hop.host == w.host && hop.port == w.port
        && hop.layerStart == w.layerStart && hop.layerEnd == w.layerEnd && hop.hasOutput == w.hasOutput)
  {
    hide Distinct, Thinned;
    ForgottenRouteIsGone(ws, route);
    WithoutRouteThins(ws, route);
    ThinnedKeeps(Coordinator(0, 0, 0, false, false), ws, WithoutRoute(ws, route));
    if w in ws && forall hop :: hop in route ==> !Matches(hop, w) { OffRouteStays(ws, route, w); }
    assert forall hop :: hop in route ==> (Matches(hop, w) <==> (
      && hop.host == w.host && hop.port == w.port
      && hop.layerStart == w.layerStart && hop.layerEnd == w.layerEnd && hop.hasOutput == w.hasOutput));
  }

  /** A registration takes out exactly the entries of the same host for the same slice with the same output flag. */
  lemma DisplacedAreTheSame(ws: seq<Worker>, w: Worker, v: Worker)
    ensures v in Kept(ws, w) <==> (
      && v in ws
      && !(v.host == w.host && v.layerStart == w.layerStart && v.layerEnd == w.layerEnd && v.hasOutput == w.hasOutput))
  {
    hide Thinned;
    KeptThins(ws, w);
  }

  // ---------------------------------------------------------------- sorting the registry

  function Insert(w: Worker, ws: seq<Worker>): (r: seq<Worker>)
    ensures multiset(r) == multiset(ws) + multiset{w}
  {
    if ws == [] || Compare(w, ws[0]) <= 0 then [w] + ws
    else
      assert ws == [ws[0]] + ws[1..];
      [ws[0]] + Insert(w, ws[1..])
  }

  function SortWorkers(ws: seq<Worker>): (r: seq<Worker>)
    ensures multiset(r) == multiset(ws)
  {
    if ws == [] then []
    else
      assert ws == [ws[0]] + ws[1..];
      Insert(ws[0], SortWorkers(ws[1..]))
  }

  lemma CompareOrders(a: Worker, b: Worker, d: Worker)
    ensures Compare(a, a) == 0
    ensures Compare(a, b) > 0 ==> Compare(b, a) <= 0
    ensures Compare(a, b) <= 0 && Compare(b, d) <= 0 ==> Compare(a, d) <= 0
  {
  }

  /** A worker that goes before all of a sorted list. */
  lemma ConsSorts(w: Worker, ws: seq<Worker>)
    requires Sorted(ws) && forall k :: 0 <= k < |ws| ==> Compare(w, ws[k]) <= 0
    ensures Sorted([w] + ws)
  {
    hide Compare;
  }

  lemma {:induction false} InsertSorts(w: Worker, ws: seq<Worker>)
    requires Sorted(ws)
    ensures Sorted(Insert(w, ws))
  {
    hide Compare;
    if ws == [] || Compare(w, ws[0]) <= 0 {
      forall k | 0 <= k < |ws| ensures Compare(w, ws[k]) <= 0 {
        CompareOrders(w, ws[0], ws[k]);
      }
      ConsSorts(w, ws);
    } else {
      InsertSorts(w, ws[1..]);
      var rest := Insert(w, ws[1..]);
      forall k | 0 <= k < |rest| ensures Compare(ws[0], rest[k]) <= 0 {
        assert rest[k] in multiset(rest);
        assert rest[k] == w || rest[k] in ws[1..];
        CompareOrders(w, ws[0], ws[0]);
      }
      ConsSorts(ws[0], rest);
    }
  }

  lemma {:induction false} SortWorkersSorts(ws: seq<Worker>)
    ensures Sorted(SortWorkers(ws))
  {
    if ws != [] {
      SortWorkersSorts(ws[1..]);
      InsertSorts(ws[0], SortWorkers(ws[1..]));
    }
  }

  // ---------------------------------------------------------------- the loops over the registry

  method DropDisplaced(ws: seq<Worker>, w: Worker) returns (kept: seq<Worker>)
    ensures kept == Kept(ws, w)
  {
    hide Displaces;
    kept := [];
    var i := 0;
    while i < |ws|
      invariant 0 <= i <= |ws|
      invariant kept + Kept(ws[i..], w) == Kept(ws, w)
    {
      assert ws[i..][1..] == ws[i + 1..];
      if !Displaces(w, ws[i]) {
        kept := kept + [ws[i]];
      }
      i := i + 1;
    }
  }

  lemma {:induction false} WithoutFdAt(ws: seq<Worker>, fd: nat, i: nat)
    requires i <= |ws| && forall k :: 0 <= k < i ==> ws[k].fd != fd
    requires i < |ws| ==> ws[i].fd == fd
    ensures WithoutFd(ws, fd) == if i < |ws| then ws[..i] + ws[i + 1..] else ws
  {
    if i > 0 {
      var t := ws[1..];
      assert forall k :: 0 <= k < |t| ==> t[k] == ws[k + 1];
      WithoutFdAt(t, fd, i - 1);
      assert i < |ws| ==> [ws[0]] + (t[..i - 1] + t[i..]) == ws[..i] + ws[i + 1..];
      assert [ws[0]] + t == ws;
    }
  }

  method DropFd(ws: seq<Worker>, fd: nat) returns (rest: seq<Worker>)
    ensures rest == WithoutFd(ws, fd)
  {
    var i := 0;
    while i < |ws| && ws[i].fd != fd
      invariant 0 <= i <= |ws| && forall k :: 0 <= k < i ==> ws[k].fd != fd
    {
      i := i + 1;
    }
    WithoutFdAt(ws, fd, i);
    rest := if i < |ws| then ws[..i] + ws[i + 1..] else ws;
  }

  lemma {:induction false} WithoutHopAt(ws: seq<Worker>, hop: Worker, i: nat)
    requires i <= |ws| && forall k :: 0 <= k < i ==> !Matches(hop, ws[k])
    requires i < |ws| ==> Matches(hop, ws[i])
    ensures WithoutHop(ws, hop) == if i < |ws| then ws[..i] + ws[i + 1..] else ws
  {
    if i > 0 {
      WithoutHopAt(ws[1..], hop, i - 1);
      assert ws == [ws[0]] + ws[1..];
    }
  }

  method DropHop(ws: seq<Worker>, hop: Worker) returns (rest: seq<Worker>)
    ensures rest == WithoutHop(ws, hop)
  {
    hide Matches;
    var i := 0;
    while i < |ws| && !Matches(hop, ws[i])
      invariant 0 <= i <= |ws| && forall k :: 0 <= k < i ==> !Matches(hop, ws[k])
    {
      i := i + 1;
    }
    WithoutHopAt(ws, hop, i);
    rest := if i < |ws| then ws[..i] + ws[i + 1..] else ws;
  }

  method DropRoute(ws: seq<Worker>, route: seq<Worker>) returns (rest: seq<Worker>, removedAny: bool)
    ensures rest == WithoutRoute(ws, route) && (removedAny <==> rest != ws)
  {
    hide Matches, Thinned;
    rest := ws;
    removedAny := false;
    ThinnedSelf(ws);
    var i := 0;
    while i < |route|
      invariant 0 <= i <= |route|
      invariant WithoutRoute(rest, route[i..]) == WithoutRoute(ws, route)
      invariant Thinned(ws, rest) && (removedAny <==> |rest| < |ws|)
    {
      assert route[i..][1..] == route[i + 1..];
      var shorter := DropHop(rest, route[i]);
      WithoutHopThins(rest, route[i]);
      ThinnedTwice(ws, rest, shorter);
      ThinnedKeeps(Coordinator(0, 0, 0, false, false), rest, shorter);
      ThinnedKeeps(Coordinator(0, 0, 0, false, false), ws, rest);
      removedAny := removedAny || |shorter| < |rest|;
      rest := shorter;
      i := i + 1;
    }
    ThinnedKeeps(Coordinator(0, 0, 0, false, false), ws, rest);
  }

  // ---------------------------------------------------------------- the coordinator's cache

  class Planner {
    const c: Coordinator
    var workers: seq<Worker>
    var generation: U64
    var shuttingDown: bool
    var planReady: bool
    var planGeneration: U64
    var plan: seq<Worker>
    ghost var changes: nat              // how often the registry really changed
    ghost var planChanges: nat          // how often it had when the cached plan was built
    ghost var planWorkers: seq<Worker>  // the registry the cached plan was built from

    ghost predicate Valid()
      reads this
    {
      && c.nLayers >= 1 && c.localEnd < c.nLayers
      && AllAccepted(c, workers) && Distinct(workers)
      && generation == changes % TWO64
      && (planReady ==>
            && planGeneration == planChanges % TWO64 && planChanges <= changes
            && PlanFits(c, planWorkers, Plan(plan))
            && (planChanges == changes ==> planWorkers == workers))
    }

    constructor (coordinator: Coordinator)
      requires coordinator.nLayers >= 1 && coordinator.localEnd < coordinator.nLayers
      ensures Valid() && workers == [] && !planReady && c == coordinator
    {
      c := coordinator;
      workers, generation, shuttingDown, planReady, planGeneration, plan := [], 0, false, false, 0, [];
      changes, planChanges, planWorkers := 0, 0, [];
    }

    /** A worker that passed the handshake registers; stale entries for the same slice go. */
    method AddWorker(w: Worker)
      requires Valid() && Accepted(c, w)
      modifies this
      ensures Valid() && shuttingDown == old(shuttingDown)
      ensures planReady == old(planReady) && plan == old(plan) && planGeneration == old(planGeneration)
      ensures planWorkers == old(planWorkers)
      ensures workers == if old(shuttingDown) then old(workers) else [w] + Kept(old(workers), w)
      ensures !shuttingDown ==> forall v :: v in workers <==> (v == w || (
        && v in old(workers)
        && !(v.host == w.host && v.layerStart == w.layerStart && v.layerEnd == w.layerEnd
             && v.hasOutput == w.hasOutput)))
      ensures changes == old(changes) + if old(shuttingDown) then 0 else 1
    {
      hide PlanFits, Accepted, Displaces, Distinct, AllAccepted, Thinned;
      if shuttingDown {
        return;
      }
      var kept := DropDisplaced(workers, w);
      KeptThins(workers, w);
      ThinnedKeeps(c, workers, kept);
      HeadTail(c, [w] + kept);
      assert ([w] + kept)[1..] == kept;
      forall v { DisplacedAreTheSame(workers, w, v); }
      workers := [w] + kept;
      Bump();
    }

    /** The change counter is 64 bits wide. */
    method Bump()
      requires generation == changes % TWO64
      modifies this`generation, this`changes
      ensures changes == old(changes) + 1 && generation == changes % TWO64
    {
      generation := (generation + 1) % TWO64;
      changes := changes + 1;
    }

    /** A control connection ended. */
    method RemoveWorker(fd: nat)
      requires Valid()
      modifies this
      ensures Valid() && workers == WithoutFd(old(workers), fd) && shuttingDown == old(shuttingDown)
      ensures planReady == old(planReady) && plan == old(plan) && planGeneration == old(planGeneration)
      ensures planWorkers == old(planWorkers)
      ensures changes == old(changes) + if workers == old(workers) then 0 else 1
    {
      hide PlanFits, Distinct, AllAccepted, Thinned;
      WithoutFdThins(workers, fd);
      ThinnedKeeps(c, workers, WithoutFd(workers, fd));
      var rest := DropFd(workers, fd);
      if |rest| < |workers| {
        workers := rest;
        Bump();
      }
    }

    /** The hops of a failed route are taken out of the registry. */
    method ForgetRoute()
      requires Valid()
      modifies this
      ensures Valid() && workers == WithoutRoute(old(workers), old(plan)) && shuttingDown == old(shuttingDown)
      ensures planReady == old(planReady) && plan == old(plan) && planGeneration == old(planGeneration)
      ensures planWorkers == old(planWorkers)
      ensures changes == old(changes) + if workers == old(workers) then 0 else 1
      ensures forall hop, w :: hop in plan && w in workers ==> !Matches(hop, w)
    {
      hide PlanFits, Matches, Distinct, AllAccepted, Thinned;
      WithoutRouteThins(workers, plan);
      ThinnedKeeps(c, workers, WithoutRoute(workers, plan));
      ForgottenRouteIsGone(workers, plan);
      var rest, removedAny := DropRoute(workers, plan);
      workers := rest;
      if removedAny {
        Bump();
      }
    }

    /** Builds the plan from the registry as it is now. */
    method Replan() returns (ok: bool)
      requires Valid()
      modifies this`planReady, this`planGeneration, this`plan, this`planChanges, this`planWorkers
      ensures Valid() && planReady == ok
      ensures ok ==> PlanFits(c, workers, Plan(plan)) && planChanges == changes
      ensures !ok ==> plan == [] && exists r: PlanResult :: !r.Plan? && PlanFits(c, workers, r)
    {
      hide PlanFits, Sorted, Distinct, AllAccepted, SortWorkers;
      var sorted := SortWorkers(workers);
      SortWorkersSorts(workers);
      var r := BuildPlan(c, workers, sorted);
      ok := r.Plan?;
      planReady := ok;
      if ok {
        plan, planGeneration := r.route, generation;
        planChanges, planWorkers := changes, workers;
      } else {
        plan, planGeneration := [], 0;
      }
    }

    /** The cached plan is reused exactly when the counters agree.  As long as the registry did not
        change 2^64 times since, a plan in hand is a complete route over workers that are registered now. */
    method EnsureRoute() returns (ok: bool)
      requires Valid()
      modifies this`planReady, this`planGeneration, this`plan, this`planChanges, this`planWorkers
      ensures Valid() && planReady == ok
      ensures old(planReady && (changes - planChanges) % TWO64 == 0) ==> ok && plan == old(plan)
      ensures ok && changes - old(planChanges) < TWO64 ==> PlanFits(c, workers, Plan(plan)) && planChanges == changes
      ensures !ok ==> exists r: PlanResult :: !r.Plan? && PlanFits(c, workers, r)
    {
      hide PlanFits;
      if planReady && planGeneration == generation {
        CountersAgree(planChanges, changes);
        return true;
      }
      if planReady { CountersAgree(planChanges, changes); }
      ok := Replan();
    }

    /** The end of a recovery: the replay over the plan in hand worked or it did not. */
    method Replayed(worked: bool)
      requires Valid() && planReady
      modifies this`planReady, this`planGeneration
      ensures Valid() && planReady == worked && (worked ==> planGeneration == old(planGeneration))
    {
      if !worked {
        planReady, planGeneration := false, 0;
      }
    }
  }

  /** Two 64-bit counters agree exactly when the number of changes between them is a multiple of 2^64. */
  lemma CountersAgree(before: nat, now: nat)
    requires before <= now
    ensures before % TWO64 == now % TWO64 <==> (now - before) % TWO64 == 0
    ensures before % TWO64 == now % TWO64 && now - before < TWO64 ==> before == now
  {
  }
}
