/** Route planning: a backtracking search for a chain of registered workers that covers every
    remote layer exactly once and can produce logits at the end. */
module RouteSearch {
  import opened Wire

  /** A registered worker; fd stands for the identity of its control connection. */
  datatype Worker = Worker(
    fd: nat,
    host: seq<Byte>,
    port: nat,
    layerStart: nat,
    layerEnd: nat,
    hasOutput: bool,
    hasHidden: bool)

  /** The coordinator's own slice and what the model looks like. */
  datatype Coordinator = Coordinator(
    nLayers: nat,
    localStart: nat,
    localEnd: nat,
    localHasOutput: bool,
    localCanOutputHead: bool)

  /** The part of the handshake that route planning relies on. */
  predicate Accepted(c: Coordinator, w: Worker) {
    && w.layerStart < c.nLayers && w.layerEnd < c.nLayers && w.layerStart <= w.layerEnd
    && (w.hasOutput ==> w.layerEnd + 1 == c.nLayers)
    && 0 < w.port <= 65535
  }

  predicate AllAccepted(c: Coordinator, ws: seq<Worker>) {
    forall i :: 0 <= i < |ws| ==> Accepted(c, ws[i])
  }

  /** The order of the search: by first layer, then output owners first, then longer slices first. */
  function Compare(a: Worker, b: Worker): int {
    if a.layerStart < b.layerStart then -1
    else if a.layerStart > b.layerStart then 1
    else if a.hasOutput != b.hasOutput then if a.hasOutput then -1 else 1
    else if a.layerEnd > b.layerEnd then -1
    else if a.layerEnd < b.layerEnd then 1
    else 0
  }

  predicate Sorted(ws: seq<Worker>) {
    forall i, k :: 0 <= i < k < |ws| ==> Compare(ws[i], ws[k]) <= 0
  }

  predicate CandidateOk(c: Coordinator, w: Worker, last: nat) {
    var needsHidden := w.layerEnd < last || !w.hasOutput;
    && !(needsHidden && !w.hasHidden)
    && !(w.layerEnd >= last && !w.hasOutput && !c.localCanOutputHead)
  }

  /** A worker that can take over at layer `next`. */
  predicate Starts(c: Coordinator, ws: seq<Worker>, w: Worker, next: nat, last: nat) {
    w in ws && w.layerStart == next && CandidateOk(c, w, last)
  }

  /** A contiguous chain of admissible workers from layer `next` up to the last layer. */
  predicate IsRoute(c: Coordinator, ws: seq<Worker>, route: seq<Worker>, next: nat, last: nat) {
    && route != []
    && Starts(c, ws, route[0], next, last)
    && (if route[0].layerEnd >= last then |route| == 1 else IsRoute(c, ws, route[1..], route[0].layerEnd + 1, last))
  }

  /** Layer f is the first layer not covered by some admissible chain that starts at `next`. */
  ghost predicate Reaches(c: Coordinator, ws: seq<Worker>, next: nat, last: nat, f: nat)
    decreases last + 1 - next
  {
    next == f || (next <= last && exists w :: Starts(c, ws, w, next, last) && w.layerEnd < last && next <= w.layerEnd
                                           && Reaches(c, ws, w.layerEnd + 1, last, f))
  }

  // ---------------------------------------------------------------- the search

  ghost predicate NoRoute(c: Coordinator, ws: seq<Worker>, next: nat, last: nat) {
    forall r :: !IsRoute(c, ws, r, next, last)
  }

  /** The furthest layer that admissible chains from `next` leave uncovered. */
  ghost predicate Furthest(c: Coordinator, ws: seq<Worker>, next: nat, last: nat, m: nat) {
    Reaches(c, ws, next, last, m) && ReachesAtMost(c, ws, next, last, m)
  }

  ghost predicate ReachesAtMost(c: Coordinator, ws: seq<Worker>, next: nat, last: nat, m: nat) {
    forall f: nat :: Reaches(c, ws, next, last, f) ==> f <= m
  }

  /** Trying worker w at layer `next` cannot succeed and leads no further than m. */
  ghost predicate RuledOut(c: Coordinator, ws: seq<Worker>, w: Worker, next: nat, last: nat, m: nat) {
    Starts(c, ws, w, next, last) ==>
      w.layerEnd < last && NoRoute(c, ws, w.layerEnd + 1, last) && ReachesAtMost(c, ws, w.layerEnd + 1, last, m)
  }

  /** At every hop the search prefers this route to all others that agree with it so far. */
  ghost predicate Preferred(c: Coordinator, ws: seq<Worker>, route: seq<Worker>, next: nat, last: nat) {
    route == [] || (
      && (forall r :: IsRoute(c, ws, r, next, last) ==> Compare(route[0], r[0]) <= 0)
      && (route[0].layerEnd >= last || Preferred(c, ws, route[1..], route[0].layerEnd + 1, last)))
  }

  /** The recursive search.  `path` has one slot per worker; `next` is the first layer still to cover.
      It finds a chain exactly when there is one, leaves the chain so far alone, and otherwise
      reports the furthest layer that admissible workers reach. */
  method Search(c: Coordinator, ws: seq<Worker>, next: nat, last: nat, path: array<Worker>, pathLen: nat)
    returns (found: bool, newLen: nat, missing: nat)
    requires Sorted(ws) && AllAccepted(c, ws) && next <= last + 1
    requires path.Length == |ws| && pathLen <= |ws|
    requires forall i :: 0 <= i < |ws| && ws[i].layerStart >= next ==> pathLen <= i
    modifies path
    ensures pathLen <= newLen <= path.Length && path[..pathLen] == old(path[..pathLen])
    ensures found ==> IsRoute(c, ws, path[pathLen..newLen], next, last)
    ensures found ==> Preferred(c, ws, path[pathLen..newLen], next, last)
    ensures !found ==> newLen == pathLen && NoRoute(c, ws, next, last) && Furthest(c, ws, next, last, missing)
    decreases last + 1 - next
  {
    hide IsRoute, Reaches, ReachesAtMost, NoRoute, Furthest, RuledOut, CandidateOk, Sorted, Preferred;
    found, newLen, missing := false, pathLen, next;
    NextIsReached(c, ws, next, last);
    var i := 0;
    while i < |ws|
      invariant 0 <= i <= |ws|
      invariant path[..pathLen] == old(path[..pathLen])
      invariant next <= missing && Reaches(c, ws, next, last, missing)
      invariant forall k :: 0 <= k < i ==> RuledOut(c, ws, ws[k], next, last, missing)
    {
      var w := ws[i];
      if w.layerStart > next {
        break;
      }
      if w.layerStart == next && CandidateOk(c, w, last) {
        path[pathLen] := w;
        if w.layerEnd >= last {
          OneHopRoute(c, ws, w, next, last);
          FirstLeft(c, ws, i, next, last, missing);
          assert path[pathLen..pathLen + 1] == [w];
          return true, pathLen + 1, missing;
        }
        LaterStarts(ws, i, w.layerEnd + 1);
        var childFound, childLen, childMissing := Search(c, ws, w.layerEnd + 1, last, path, pathLen + 1);
        assert path[..pathLen] == path[..pathLen + 1][..pathLen];
        if childFound {
          LongerRoute(c, ws, w, path[pathLen + 1..childLen], next, last);
          FirstLeft(c, ws, i, next, last, missing);
          LongerPreferred(c, ws, w, path[pathLen + 1..childLen], next, last);
          assert path[pathLen..childLen] == [path[..pathLen + 1][pathLen]] + path[pathLen + 1..childLen];
          return true, childLen, missing;
        }
        WidenRuledOut(c, ws, i, next, last, missing, childMissing);
        ChildRuledOut(c, ws, w, next, last, childMissing);
        if childMissing > missing {
          missing := childMissing;
        }
      } else {
        NotACandidate(c, ws, w, next, last, missing);
      }
      i := i + 1;
    }
    if i < |ws| { NothingLater(c, ws, i, next, last, missing); }
    AllRuledOut(c, ws, next, last, missing);
  }

  lemma NextIsReached(c: Coordinator, ws: seq<Worker>, next: nat, last: nat)
    ensures Reaches(c, ws, next, last, next)
  {
  }

  lemma OneHopRoute(c: Coordinator, ws: seq<Worker>, w: Worker, next: nat, last: nat)
    requires Starts(c, ws, w, next, last) && w.layerEnd >= last
    ensures IsRoute(c, ws, [w], next, last)
  {
  }

  lemma LongerRoute(c: Coordinator, ws: seq<Worker>, w: Worker, rest: seq<Worker>, next: nat, last: nat)
    requires Starts(c, ws, w, next, last) && w.layerEnd < last && IsRoute(c, ws, rest, w.layerEnd + 1, last)
    ensures IsRoute(c, ws, [w] + rest, next, last)
  {
    assert ([w] + rest)[1..] == rest;
  }

  /** When all workers before worker i are ruled out, no route starts with one that the order puts before it. */
  lemma FirstLeft(c: Coordinator, ws: seq<Worker>, i: nat, next: nat, last: nat, m: nat)
    requires Sorted(ws) && i < |ws| && forall k :: 0 <= k < i ==> RuledOut(c, ws, ws[k], next, last, m)
    ensures forall r :: IsRoute(c, ws, r, next, last) ==> Compare(ws[i], r[0]) <= 0
    ensures ws[i].layerEnd >= last ==> Preferred(c, ws, [ws[i]], next, last)
  {
    hide Compare, ReachesAtMost, CandidateOk;
    forall r | IsRoute(c, ws, r, next, last) ensures Compare(ws[i], r[0]) <= 0 {
      var k :| 0 <= k < |ws| && ws[k] == r[0];
      NotRuledOut(c, ws, r, next, last, m);
      assert i <= k;
      SameCompare(ws[i]);
    }
  }

  lemma NotRuledOut(c: Coordinator, ws: seq<Worker>, r: seq<Worker>, next: nat, last: nat, m: nat)
    requires IsRoute(c, ws, r, next, last)
    ensures !RuledOut(c, ws, r[0], next, last, m)
  {
    hide CandidateOk, ReachesAtMost;
  }

  lemma SameCompare(w: Worker)
    ensures Compare(w, w) == 0
  {
  }

  lemma LongerPreferred(c: Coordinator, ws: seq<Worker>, w: Worker, rest: seq<Worker>, next: nat, last: nat)
    requires w.layerEnd < last && Preferred(c, ws, rest, w.layerEnd + 1, last)
    requires forall r :: IsRoute(c, ws, r, next, last) ==> Compare(w, r[0]) <= 0
    ensures Preferred(c, ws, [w] + rest, next, last)
  {
    hide Compare, IsRoute;
    assert ([w] + rest)[1..] == rest;
  }

  /** In sorted order the workers that start after worker i's slice come after worker i. */
  lemma LaterStarts(ws: seq<Worker>, i: nat, from: nat)
    requires Sorted(ws) && i < |ws| && ws[i].layerStart < from
    ensures forall k :: 0 <= k < |ws| && ws[k].layerStart >= from ==> i < k
  {
    assert forall k :: 0 <= k < i ==> Compare(ws[k], ws[i]) <= 0;
  }

  lemma WidenRuledOut(c: Coordinator, ws: seq<Worker>, i: nat, next: nat, last: nat, m: nat, m': nat)
    requires i <= |ws| && forall k :: 0 <= k < i ==> RuledOut(c, ws, ws[k], next, last, m)
    ensures m <= m' ==> forall k :: 0 <= k < i ==> RuledOut(c, ws, ws[k], next, last, m')
  {
    hide NoRoute, Reaches, CandidateOk;
  }

  /** What a failed search from behind w says about w, and about where its chain got to. */
  lemma ChildRuledOut(c: Coordinator, ws: seq<Worker>, w: Worker, next: nat, last: nat, m: nat)
    requires Starts(c, ws, w, next, last) && next <= w.layerEnd < last
    requires NoRoute(c, ws, w.layerEnd + 1, last) && Furthest(c, ws, w.layerEnd + 1, last, m)
    ensures forall m' :: m' >= m ==> RuledOut(c, ws, w, next, last, m')
    ensures Reaches(c, ws, next, last, m)
  {
    hide NoRoute, CandidateOk;
  }

  lemma NotACandidate(c: Coordinator, ws: seq<Worker>, w: Worker, next: nat, last: nat, m: nat)
    requires !Starts(c, ws, w, next, last)
    ensures RuledOut(c, ws, w, next, last, m)
  {
  }

  /** In sorted order nothing at or after a worker that starts too late can take over. */
  lemma NothingLater(c: Coordinator, ws: seq<Worker>, i: nat, next: nat, last: nat, m: nat)
    requires Sorted(ws) && i < |ws| && ws[i].layerStart > next
    ensures forall k :: i <= k < |ws| ==> RuledOut(c, ws, ws[k], next, last, m)
  {
    hide NoRoute, Reaches;
    forall k | i <= k < |ws| ensures RuledOut(c, ws, ws[k], next, last, m) {
      assert i < k ==> Compare(ws[i], ws[k]) <= 0;
    }
  }

  lemma AllRuledOut(c: Coordinator, ws: seq<Worker>, next: nat, last: nat, m: nat)
    requires Reaches(c, ws, next, last, m) && next <= m
    requires forall k :: 0 <= k < |ws| ==> RuledOut(c, ws, ws[k], next, last, m)
    ensures NoRoute(c, ws, next, last) && Furthest(c, ws, next, last, m)
  {
    forall w | w in ws ensures RuledOut(c, ws, w, next, last, m) {
      var k :| 0 <= k < |ws| && ws[k] == w;
    }
    forall r ensures !IsRoute(c, ws, r, next, last) {
      if IsRoute(c, ws, r, next, last) {
        assert RuledOut(c, ws, r[0], next, last, m);
      }
    }
  }

  // ---------------------------------------------------------------- what the answers mean

  /** Behind the reported layer the network is really missing something: the search gave no route, and
      no admissible worker starts at the reported layer. */
  lemma NobodyStartsAtMissing(c: Coordinator, ws: seq<Worker>, next: nat, last: nat, missing: nat)
    requires AllAccepted(c, ws) && next <= last + 1
    requires NoRoute(c, ws, next, last) && Furthest(c, ws, next, last, missing)
    ensures forall w :: !Starts(c, ws, w, missing, last)
  {
    forall w ensures !Starts(c, ws, w, missing, last) {
      if Starts(c, ws, w, missing, last) {
        assert Accepted(c, w);
        if w.layerEnd < last {
          FurtherFrom(c, ws, next, last, missing, w);
        } else {
          OneHopRoute(c, ws, w, missing, last);
          RouteFrom(c, ws, next, last, missing, [w]);
        }
      }
    }
  }

  lemma {:induction false} FurtherFrom(c: Coordinator, ws: seq<Worker>, next: nat, last: nat, f: nat, w: Worker)
    requires Reaches(c, ws, next, last, f) && Starts(c, ws, w, f, last) && f <= w.layerEnd < last
    ensures Reaches(c, ws, next, last, w.layerEnd + 1)
    decreases last + 1 - next
  {
    if next == f {
      NextIsReached(c, ws, w.layerEnd + 1, last);
    } else {
      var v :| Starts(c, ws, v, next, last) && v.layerEnd < last && next <= v.layerEnd
        && Reaches(c, ws, v.layerEnd + 1, last, f);
      FurtherFrom(c, ws, v.layerEnd + 1, last, f, w);
    }
  }

  lemma {:induction false} RouteFrom(c: Coordinator, ws: seq<Worker>, next: nat, last: nat, f: nat, rest: seq<Worker>)
    requires Reaches(c, ws, next, last, f) && IsRoute(c, ws, rest, f, last)
    ensures !NoRoute(c, ws, next, last)
    decreases last + 1 - next
  {
    if next != f {
      var v :| Starts(c, ws, v, next, last) && v.layerEnd < last && next <= v.layerEnd
        && Reaches(c, ws, v.layerEnd + 1, last, f);
      RouteFrom(c, ws, v.layerEnd + 1, last, f, rest);
      var r :| IsRoute(c, ws, r, v.layerEnd + 1, last);
      LongerRoute(c, ws, v, r, next, last);
    }
  }

  /** The route depends on which workers are registered, not on how they are ordered. */
  lemma {:induction false} OrderIsIrrelevant(c: Coordinator, ws: seq<Worker>, vs: seq<Worker>, route: seq<Worker>,
                                             next: nat, last: nat)
    requires multiset(ws) == multiset(vs)
    ensures IsRoute(c, ws, route, next, last) == IsRoute(c, vs, route, next, last)
  {
    if route != [] {
      SameMembers(ws, vs, route[0]);
      if route[0].layerEnd < last {
        OrderIsIrrelevant(c, ws, vs, route[1..], route[0].layerEnd + 1, last);
      }
    }
  }

  lemma SameMembers(ws: seq<Worker>, vs: seq<Worker>, w: Worker)
    requires multiset(ws) == multiset(vs)
    ensures w in ws <==> w in vs
  {
    assert w in ws <==> w in multiset(ws);
    assert w in vs <==> w in multiset(vs);
  }

  lemma {:induction false} OrderIsIrrelevantToReach(c: Coordinator, ws: seq<Worker>, vs: seq<Worker>, next: nat,
      last: nat, f: nat)
    requires multiset(ws) == multiset(vs) && Reaches(c, ws, next, last, f)
    ensures Reaches(c, vs, next, last, f)
    decreases last + 1 - next
  {
    if next != f {
      var w :| Starts(c, ws, w, next, last) && w.layerEnd < last && next <= w.layerEnd
        && Reaches(c, ws, w.layerEnd + 1, last, f);
      SameMembers(ws, vs, w);
      OrderIsIrrelevantToReach(c, ws, vs, w.layerEnd + 1, last, f);
    }
  }

  /** How many hops of a route hold layer l. */
  function Holders(route: seq<Worker>, l: nat): nat {
    if route == [] then 0
    else (if route[0].layerStart <= l <= route[0].layerEnd then 1 else 0) + Holders(route[1..], l)
  }

  /** A route holds every layer from its start to the last exactly once and no other, hands a hidden
      state on at every boundary, and ends where logits can be produced. */
  lemma {:induction false} RouteCoversEachLayerOnce(c: Coordinator, ws: seq<Worker>, route: seq<Worker>, next: nat,
      l: nat)
    requires c.nLayers >= 1 && AllAccepted(c, ws) && next < c.nLayers
    requires IsRoute(c, ws, route, next, c.nLayers - 1)
    ensures Holders(route, l) == if next <= l < c.nLayers then 1 else 0
    ensures route[|route| - 1].hasOutput || c.localCanOutputHead
    ensures forall i :: 0 <= i < |route| && !route[i].hasOutput ==> route[i].hasHidden
    ensures forall i :: 0 <= i < |route| ==> (route[i].hasOutput ==> i == |route| - 1) && route[i] in ws
    decreases |route|
  {
    var w := route[0];
    assert Accepted(c, w);
    if w.layerEnd < c.nLayers - 1 {
      RouteCoversEachLayerOnce(c, ws, route[1..], w.layerEnd + 1, l);
      assert forall i :: 1 <= i < |route| ==> route[i] == route[1..][i - 1];
    } else {
      assert route[1..] == [];
    }
  }

  // ---------------------------------------------------------------- routes in the workers' own fields

  /** Registered workers one behind the other, the first one at layer `next`. */
  predicate Linked(ws: seq<Worker>, hops: seq<Worker>, next: nat) {
    && (forall i :: 0 <= i < |hops| ==> hops[i] in ws)
    && (hops != [] ==> hops[0].layerStart == next)
    && (forall i :: 0 < i < |hops| ==> hops[i].layerStart == hops[i - 1].layerEnd + 1)
  }

  /** Workers that take the model from layer `next` to its end: each has a hidden state to hand on or the output
      head, and if the last one has no output head, the coordinator can run its own. */
  predicate Chain(c: Coordinator, ws: seq<Worker>, hops: seq<Worker>, next: nat) {
    && hops != [] && Linked(ws, hops, next) && hops[|hops| - 1].layerEnd + 1 == c.nLayers
    && (forall i :: 0 <= i < |hops| ==> hops[i].hasOutput || hops[i].hasHidden)
    && (hops[|hops| - 1].hasOutput || c.localCanOutputHead)
  }

  ghost predicate HasChain(c: Coordinator, ws: seq<Worker>, next: nat) {
    exists hops :: Chain(c, ws, hops, next)
  }

  /** What the search takes for a route is such a chain, and the other way round. */
  lemma {:induction false} RouteIffChain(c: Coordinator, ws: seq<Worker>, hops: seq<Worker>, next: nat)
    requires c.nLayers >= 1 && AllAccepted(c, ws)
    ensures IsRoute(c, ws, hops, next, c.nLayers - 1) <==> Chain(c, ws, hops, next)
    decreases |hops|
  {
    if hops != [] && hops[0] in ws {
      assert Accepted(c, hops[0]);
      if |hops| == 1 {
        assert hops[1..] == [];
      } else {
        ChainTail(c, ws, hops, next);
        RouteIffChain(c, ws, hops[1..], hops[0].layerEnd + 1);
      }
    }
  }

  /** A chain of several workers is one worker that does not end the model, and a chain behind it. */
  lemma ChainTail(c: Coordinator, ws: seq<Worker>, hops: seq<Worker>, next: nat)
    requires c.nLayers >= 1 && AllAccepted(c, ws) && |hops| > 1 && hops[0] in ws
    ensures Chain(c, ws, hops, next) <==>
      && hops[0].layerStart == next && hops[0].layerEnd + 1 < c.nLayers && hops[0].hasHidden
      && Chain(c, ws, hops[1..], hops[0].layerEnd + 1)
  {
    var rest := hops[1..];
    assert forall i :: 0 <= i < |rest| ==> rest[i] == hops[i + 1];
    assert hops[1] in ws ==> Accepted(c, hops[1]);
    if Chain(c, ws, rest, hops[0].layerEnd + 1) {
      forall i | 0 < i < |hops| ensures hops[i] in ws && hops[i].layerStart == hops[i - 1].layerEnd + 1 {
        assert hops[i] == rest[i - 1] && (i > 1 ==> hops[i - 1] == rest[i - 2]);
      }
      forall i | 0 < i < |hops| ensures hops[i].hasOutput || hops[i].hasHidden {
        assert hops[i] == rest[i - 1];
      }
    }
    if Chain(c, ws, hops, next) {
      assert hops[1].layerStart == hops[0].layerEnd + 1;
    }
  }

  /** No other chain does better at the first hop at which it differs: this one goes on with a longer slice, and
      of two that reach the end takes one with the output head. */
  ghost predicate Foremost(c: Coordinator, ws: seq<Worker>, hops: seq<Worker>, next: nat) {
    forall alt: seq<Worker>, i :: Chain(c, ws, alt, next) && 0 <= i < |hops| && i < |alt| && alt[..i] == hops[..i] ==>
      && alt[i].layerEnd <= hops[i].layerEnd
      && (alt[i].layerEnd == hops[i].layerEnd && alt[i].hasOutput ==> hops[i].hasOutput)
  }

  lemma {:induction false} PreferredAt(c: Coordinator, ws: seq<Worker>, hops: seq<Worker>, alt: seq<Worker>, i: nat,
                                       next: nat, last: nat)
    requires IsRoute(c, ws, hops, next, last) && Preferred(c, ws, hops, next, last) && IsRoute(c, ws, alt, next, last)
    requires i < |hops| && i < |alt| && alt[..i] == hops[..i]
    ensures hops[i] in ws && alt[i] in ws && hops[i].layerStart == alt[i].layerStart && Compare(hops[i], alt[i]) <= 0
    decreases i
  {
    hide Compare, CandidateOk;
    if i > 0 {
      assert alt[..i][0] == hops[..i][0];
      assert alt[1..][..i - 1] == alt[..i][1..] && hops[1..][..i - 1] == hops[..i][1..];
      PreferredAt(c, ws, hops[1..], alt[1..], i - 1, hops[0].layerEnd + 1, last);
    }
  }

  lemma PreferredIsForemost(c: Coordinator, ws: seq<Worker>, hops: seq<Worker>, next: nat)
    requires c.nLayers >= 1 && AllAccepted(c, ws)
    requires IsRoute(c, ws, hops, next, c.nLayers - 1) && Preferred(c, ws, hops, next, c.nLayers - 1)
    ensures Foremost(c, ws, hops, next)
  {
    hide IsRoute, Preferred, Chain;
    forall alt: seq<Worker>, i | Chain(c, ws, alt, next) && 0 <= i < |hops| && i < |alt| && alt[..i] == hops[..i]
      ensures alt[i].layerEnd <= hops[i].layerEnd
      ensures alt[i].layerEnd == hops[i].layerEnd && alt[i].hasOutput ==> hops[i].hasOutput
    {
      RouteIffChain(c, ws, alt, next);
      PreferredAt(c, ws, hops, alt, i, next, c.nLayers - 1);
      assert Accepted(c, hops[i]) && Accepted(c, alt[i]);
    }
  }

  /** Workers that hand a hidden state on up to layer f, short of the end of the model. */
  predicate LeadsTo(c: Coordinator, ws: seq<Worker>, hops: seq<Worker>, next: nat, f: nat) {
    && Linked(ws, hops, next) && f == (if hops == [] then next else hops[|hops| - 1].layerEnd + 1)
    && (forall i :: 0 <= i < |hops| ==> hops[i].hasHidden && hops[i].layerEnd + 1 < c.nLayers)
  }

  lemma {:induction false} ReachedByHops(c: Coordinator, ws: seq<Worker>, next: nat, f: nat) returns (hops: seq<Worker>)
    requires c.nLayers >= 1 && Reaches(c, ws, next, c.nLayers - 1, f)
    ensures LeadsTo(c, ws, hops, next, f)
    decreases c.nLayers - next
  {
    if next == f {
      hops := [];
    } else {
      var w :| Starts(c, ws, w, next, c.nLayers - 1) && w.layerEnd < c.nLayers - 1 && next <= w.layerEnd
        && Reaches(c, ws, w.layerEnd + 1, c.nLayers - 1, f);
      var rest := ReachedByHops(c, ws, w.layerEnd + 1, f);
      hops := [w] + rest;
    }
  }

  lemma {:induction false} HopsReach(c: Coordinator, ws: seq<Worker>, hops: seq<Worker>, next: nat, f: nat)
    requires c.nLayers >= 1 && AllAccepted(c, ws) && LeadsTo(c, ws, hops, next, f)
    ensures Reaches(c, ws, next, c.nLayers - 1, f)
    decreases |hops|
  {
    if hops != [] {
      assert Accepted(c, hops[0]);
      var rest := hops[1..];
      assert forall i :: 0 <= i < |rest| ==> rest[i] == hops[i + 1];
      HopsReach(c, ws, rest, hops[0].layerEnd + 1, f);
      assert Starts(c, ws, hops[0], next, c.nLayers - 1);
    }
  }

  /** A worker that can neither hand a hidden state on nor end the model. */
  predicate CannotGoOn(c: Coordinator, w: Worker) {
    !w.hasOutput && (!w.hasHidden || (w.layerEnd + 1 == c.nLayers && !c.localCanOutputHead))
  }

  /** The layer reported as missing is the furthest one that hidden states can be handed on to, and every worker
      registered there is useless. */
  lemma MissingIsFurthest(c: Coordinator, ws: seq<Worker>, next: nat, missing: nat)
    requires c.nLayers >= 1 && AllAccepted(c, ws) && next <= c.nLayers
    requires NoRoute(c, ws, next, c.nLayers - 1) && Furthest(c, ws, next, c.nLayers - 1, missing)
    ensures exists hops :: LeadsTo(c, ws, hops, next, missing)
    ensures forall hops, f: nat :: LeadsTo(c, ws, hops, next, f) ==> f <= missing
    ensures forall w :: w in ws && w.layerStart == missing ==> CannotGoOn(c, w)
  {
    hide IsRoute, NoRoute, Reaches, LeadsTo;
    var hops := ReachedByHops(c, ws, next, missing);
    forall hops, f: nat | LeadsTo(c, ws, hops, next, f) ensures f <= missing {
      HopsReach(c, ws, hops, next, f);
    }
    NobodyStartsAtMissing(c, ws, next, c.nLayers - 1, missing);
    forall w | w in ws && w.layerStart == missing ensures CannotGoOn(c, w) {
      assert Accepted(c, w) && !Starts(c, ws, w, missing, c.nLayers - 1);
    }
  }

  // ---------------------------------------------------------------- the plan

  datatype PlanResult =
    | Plan(route: seq<Worker>)          // empty when the coordinator covers the model alone
    | NotFromLayerZero
    | Incomplete(missing: nat)

  predicate CoversAlone(c: Coordinator) {
    c.localEnd == c.nLayers - 1 && (c.localHasOutput || c.localCanOutputHead)
  }

  /** What the planner promises about the registered workers. */
  ghost predicate PlanFits(c: Coordinator, ws: seq<Worker>, r: PlanResult)
    requires c.nLayers >= 1
  {
    var next, last := c.localEnd + 1, c.nLayers - 1;
    match r
    case NotFromLayerZero => c.localStart != 0
    case Plan(route) =>
      c.localStart == 0
        && (if CoversAlone(c) then route == []
            else IsRoute(c, ws, route, next, last) && Preferred(c, ws, route, next, last) && |route| <= |ws|)
    case Incomplete(m) =>
      && c.localStart == 0 && !CoversAlone(c) && NoRoute(c, ws, next, last) && Furthest(c, ws, next, last, m)
      && forall w :: !Starts(c, ws, w, m, last)
  }

  /** Builds the plan from the registry; `sorted` is the registry in any order that the comparison
      function allows a sort to leave. */
  method BuildPlan(c: Coordinator, registered: seq<Worker>, sorted: seq<Worker>) returns (r: PlanResult)
    requires c.nLayers >= 1 && c.localEnd < c.nLayers && AllAccepted(c, registered)
    requires Sorted(sorted) && multiset(sorted) == multiset(registered)
    ensures PlanFits(c, registered, r)
    ensures r.Plan? <==> (
      && c.localStart == 0
      && ((c.localEnd + 1 == c.nLayers && (c.localHasOutput || c.localCanOutputHead))
          || HasChain(c, registered, c.localEnd + 1)))
    ensures r.Plan? && r.route == [] ==> c.localEnd + 1 == c.nLayers && (c.localHasOutput || c.localCanOutputHead)
    ensures r.Plan? && r.route != [] ==>
      Chain(c, registered, r.route, c.localEnd + 1) && Foremost(c, registered, r.route, c.localEnd + 1)
  {
    hide IsRoute, Reaches, Sorted, NoRoute, Furthest, AllAccepted, Preferred, Chain, HasChain, Foremost, CandidateOk;
    if c.localStart != 0 {
      return NotFromLayerZero;
    }
    if CoversAlone(c) {
      return Plan([]);
    }
    StillAccepted(c, sorted, registered);
    var path := new Worker[|sorted|];
    var found, len, missing := Search(c, sorted, c.localEnd + 1, c.nLayers - 1, path, 0);
    if found {
      assert path[0..len] == path[..len];
      SameLength(sorted, registered);
      FoundRoute(c, sorted, registered, path[..len], c.localEnd + 1);
      return Plan(path[..len]);
    }
    SameFailure(c, sorted, registered, c.localEnd + 1, c.nLayers - 1, missing);
    NoChain(c, registered, c.localEnd + 1);
    NobodyStartsAtMissing(c, registered, c.localEnd + 1, c.nLayers - 1, missing);
    return Incomplete(missing);
  }

  lemma FoundRoute(c: Coordinator, ws: seq<Worker>, vs: seq<Worker>, route: seq<Worker>, next: nat)
    requires c.nLayers >= 1 && AllAccepted(c, vs) && multiset(ws) == multiset(vs)
    requires IsRoute(c, ws, route, next, c.nLayers - 1) && Preferred(c, ws, route, next, c.nLayers - 1)
    ensures IsRoute(c, vs, route, next, c.nLayers - 1) && Preferred(c, vs, route, next, c.nLayers - 1)
    ensures route != [] && Chain(c, vs, route, next) && HasChain(c, vs, next) && Foremost(c, vs, route, next)
  {
    hide IsRoute, Preferred, Foremost, AllAccepted;
    OrderIsIrrelevant(c, ws, vs, route, next, c.nLayers - 1);
    PreferredAnyOrder(c, ws, vs, route, next, c.nLayers - 1);
    PreferredIsForemost(c, vs, route, next);
    RouteIffChain(c, vs, route, next);
  }

  lemma NoChain(c: Coordinator, ws: seq<Worker>, next: nat)
    requires c.nLayers >= 1 && AllAccepted(c, ws) && NoRoute(c, ws, next, c.nLayers - 1)
    ensures !HasChain(c, ws, next)
  {
    hide IsRoute, Chain;
    forall hops ensures !Chain(c, ws, hops, next) {
      RouteIffChain(c, ws, hops, next);
    }
  }

  lemma {:induction false} PreferredAnyOrder(c: Coordinator, ws: seq<Worker>, vs: seq<Worker>, route: seq<Worker>,
                                             next: nat, last: nat)
    requires multiset(ws) == multiset(vs) && Preferred(c, ws, route, next, last)
    ensures Preferred(c, vs, route, next, last)
    decreases |route|
  {
    hide Compare, CandidateOk;
    if route != [] {
      forall r | IsRoute(c, vs, r, next, last) ensures Compare(route[0], r[0]) <= 0 {
        OrderIsIrrelevant(c, ws, vs, r, next, last);
      }
      if route[0].layerEnd < last {
        PreferredAnyOrder(c, ws, vs, route[1..], route[0].layerEnd + 1, last);
      }
    }
  }

  lemma SameLength(ws: seq<Worker>, vs: seq<Worker>)
    requires multiset(ws) == multiset(vs)
    ensures |ws| == |vs|
  {
    assert |multiset(ws)| == |ws| && |multiset(vs)| == |vs|;
  }

  lemma StillAccepted(c: Coordinator, ws: seq<Worker>, vs: seq<Worker>)
    requires multiset(ws) == multiset(vs) && AllAccepted(c, vs)
    ensures AllAccepted(c, ws)
  {
    forall i | 0 <= i < |ws| ensures Accepted(c, ws[i]) {
      SameMembers(ws, vs, ws[i]);
      var k :| 0 <= k < |vs| && vs[k] == ws[i];
    }
  }

  lemma SameFailure(c: Coordinator, ws: seq<Worker>, vs: seq<Worker>, next: nat, last: nat, m: nat)
    requires multiset(ws) == multiset(vs)
    requires NoRoute(c, ws, next, last) && Furthest(c, ws, next, last, m)
    ensures NoRoute(c, vs, next, last) && Furthest(c, vs, next, last, m)
  {
    hide IsRoute, Reaches;
    forall r ensures !IsRoute(c, vs, r, next, last) {
      OrderIsIrrelevant(c, ws, vs, r, next, last);
    }
    forall f: nat | Reaches(c, vs, next, last, f) ensures f <= m {
      OrderIsIrrelevantToReach(c, vs, ws, next, last, f);
    }
    OrderIsIrrelevantToReach(c, ws, vs, next, last, m);
  }
}
