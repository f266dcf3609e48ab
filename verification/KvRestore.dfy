/** Restoring a session payload along a route, and what saving it again gives. */
module KvRestore {
  import opened Wire
  import opened KvLayout
  import opened KvPayload

  // ---------------------------------------------------------------- one node

  /** A node's session: its range of layers, its own capacities, and the state it holds. */
  datatype Node = Node(
    range: Range, ctx: U32, prefillCap: U32, rawCap: U32, rawWindow: U32, compCap: U32, layerCaps: seq<U32>,
    live: bool, tokens: seq<U32>, layers: seq<Layer>)

  function Size(r: Range): nat
    requires r.first <= r.last
  {
    r.last - r.first + 1
  }

  /** What the engine checks in a shard header before it touches its own state. */
  predicate HeaderFits(m: Model, n: Node, y: Layout, nTokens: nat) {
    && y.ctx <= n.ctx && y.tokenCount == nTokens < n.ctx
    && y.nLayers == |m.ratios| && y.headDim == m.headDim && y.indexerHeadDim == m.indexerHeadDim
    && y.rawWindow == n.rawWindow
    && y.rawCap != 0 && y.rawLive == (if y.tokenCount < y.rawWindow then y.tokenCount else y.rawWindow)
    && y.rawLive <= y.rawCap && y.rawLive <= n.rawCap
    && y.compCap <= n.compCap
  }

  predicate CountsFit(n: Node, y: Layout, cs: seq<Counts>) {
    |cs| == |n.layerCaps| &&
    forall i :: 0 <= i < |cs| ==> CountsOk(y, cs[i]) && cs[i].nComp <= n.layerCaps[i] && cs[i].nIndex <= n.layerCaps[i]
  }

  /** Installing a shard: header, row counts, then exactly the tensors of the node's layers. */
  function NodeLoad(m: Model, n: Node, b: seq<Byte>, tokens: seq<U32>): Option<Node>
    requires n.range.first <= n.range.last < |m.ratios|
  {
    match SplitShard(b, Size(n.range))
    case None => None
    case Some((h, cs, tensors)) =>
      if !HeaderNames(h, n.range) then None
      else
        var y := LayoutOf(h);
        if !HeaderFits(m, n, y, |tokens|) || !CountsFit(n, y, cs) || n.range.first + |cs| > |m.ratios| then None
        else
          var cut := CutLayers(m, y, n.range.first, cs, tensors);
          if cut.None? || cut.value.1 != [] then None
          else Some(n.(live := true, tokens := tokens, layers := cut.value.0))
  }

  lemma NodeLoadsShard(m: Model, n: Node, y: Layout, zs: seq<Layer>, tokens: seq<U32>)
    requires n.range.first <= n.range.last < |m.ratios| && |zs| == Size(n.range)
    requires HeaderFits(m, n, y, |tokens|) && CountsFit(n, y, CountsOf(zs)) && LayersOk(m, y, n.range.first, zs)
    ensures NodeLoad(m, n, ShardBytes(y, n.range, CountsOf(zs), Join(zs)), tokens)
         == Some(n.(live := true, tokens := tokens, layers := zs))
  {
    hide LayerBytes, Join, CutLayers, HeaderFits, CountsFit, LayersOk, ShardBytes, LayerHeader, LayoutOf, SplitShard,
         HeaderNames;
    ShardSplits(y, n.range, zs);
    CutsWhatWasJoined(m, y, n.range.first, zs, []);
    assert Join(zs) + [] == Join(zs);
  }

  /** The layout a node announces when it saves: its own capacities, the live rows of its timeline. */
  function NodeLayout(m: Model, n: Node): Layout
    requires |n.tokens| < TWO32 && |m.ratios| < TWO32
  {
    var window := if n.rawWindow < n.rawCap then n.rawWindow else n.rawCap;
    Layout(n.ctx, n.prefillCap, n.rawCap, n.rawWindow, n.compCap, |n.tokens|, |m.ratios|, m.headDim, m.indexerHeadDim,
           if window < |n.tokens| then window else |n.tokens|)
  }

  function NodeSave(m: Model, n: Node): seq<Byte>
    requires |n.tokens| < TWO32 && |m.ratios| < TWO32
  {
    ShardBytes(NodeLayout(m, n), n.range, CountsOf(n.layers), Join(n.layers))
  }

  // ---------------------------------------------------------------- the whole payload

  function SessionLayout(h: seq<U32>): Layout
    requires |h| == SESSION_FIELDS
  {
    Layout(h[2], h[3], h[4], h[5], h[6], h[7], h[8], h[9], h[10], h[12])
  }

  datatype Session = Session(layout: Layout, tokens: seq<U32>, logits: seq<Byte>, cs: seq<Counts>, tensors: seq<Byte>)

  /** Everything in front of the tensors. */
  function ParseSession(m: Model, ctx: U32, b: seq<Byte>): Option<Session> {
    if |b| < 4 * SESSION_FIELDS then None
    else
      var h := GetLEWords(b, SESSION_FIELDS);
      var y := SessionLayout(h);
      if h[0] != SESSION_MAGIC || h[1] != SESSION_VERSION then None
      else if y.nLayers != |m.ratios| || y.ctx > ctx || y.tokenCount >= ctx || h[11] != m.vocab
        || !RawLiveValid(y) then None
      else
        var n1 := 4 * (SESSION_FIELDS + y.tokenCount);
        var n2 := n1 + 4 * m.vocab;
        var n3 := n2 + 4 * (y.nLayers + y.nLayers);
        if |b| < n3 then None
        else ParseBody(m, y, GetLEWords(b, SESSION_FIELDS + y.tokenCount)[SESSION_FIELDS..], b[n1..n2],
                       GetLEWords(b[n2..], y.nLayers + y.nLayers), b[n3..])
  }

  function ParseBody(m: Model, y: Layout, tokens: seq<U32>, logits: seq<Byte>, counts: seq<U32>,
                     tensors: seq<Byte>): Option<Session>
    requires |counts| == y.nLayers + y.nLayers
  {
    var cs := Zip(counts[..y.nLayers], counts[y.nLayers..]);
    if (exists i :: 0 <= i < |tokens| && !InVocabulary(tokens[i], m.vocab))
      || (exists i :: 0 <= i < |cs| && !CountsOk(y, cs[i])) then None
    else Some(Session(y, tokens, logits, cs, tensors))
  }

  /** The nodes after shards k, k+1, ... were cut out of the tensors and installed; none if one of them
      refuses, or if bytes are left over at the end. */
  function LoadShards(m: Model, p: Session, nodes: seq<Node>, k: nat, rest: seq<Byte>): (r: Option<seq<Node>>)
    requires RouteCovers(|m.ratios|, RouteOf(nodes)) && |p.cs| == |m.ratios| && k <= |nodes|
    ensures r.Some? ==> |r.value| == |nodes| && RouteOf(r.value) == RouteOf(nodes)
    decreases |nodes| - k
  {
    if k == |nodes| then if rest == [] then Some(nodes) else None
    else
      var r := RouteOf(nodes)[k];
      var cs := p.cs[r.first..r.last + 1];
      var cut := CutLayers(m, p.layout, r.first, cs, rest);
      if cut.None? then None
      else
        var loaded := NodeLoad(m, nodes[k], ShardBytes(p.layout, r, cs, Join(cut.value.0)), p.tokens);
        if loaded.None? then None
        else
          assert RouteOf(nodes[k := loaded.value]) == RouteOf(nodes);
          LoadShards(m, p, nodes[k := loaded.value], k + 1, cut.value.1)
  }

  function RouteOf(nodes: seq<Node>): (r: seq<Range>)
    ensures |r| == |nodes|
  {
    seq(|nodes|, i requires 0 <= i < |nodes| => nodes[i].range)
  }

  /** Loads a payload: node 0 is the coordinator itself. */
  method LoadPayload(m: Model, nodes: seq<Node>, b: seq<Byte>) returns (r: Option<(seq<Node>, seq<Byte>)>)
    requires |nodes| > 0
    ensures r.Some? <==>
      && RouteCovers(|m.ratios|, RouteOf(nodes)) && ParseSession(m, nodes[0].ctx, b).Some?
      && Restored(m, nodes, b).Some?
    ensures r.Some? ==> r.value == (Restored(m, nodes, b).value, ParseSession(m, nodes[0].ctx, b).value.logits)
  {
    hide ParseSession, NodeLoad, CutLayers, ShardBytes, RouteOf;
    if !RouteCovers(|m.ratios|, RouteOf(nodes)) {
      return None;
    }
    var parsed := ParseSession(m, nodes[0].ctx, b);
    if parsed.None? {
      return None;
    }
    var p := parsed.value;
    ParsedCounts(m, nodes[0].ctx, b);
    var now, rest, k := nodes, p.tensors, 0;
    while k < |nodes|
      invariant 0 <= k <= |nodes| == |now| && RouteOf(now) == RouteOf(nodes)
      invariant LoadShards(m, p, now, k, rest) == LoadShards(m, p, nodes, 0, p.tensors)
    {
      var range := RouteOf(now)[k];
      var cs := p.cs[range.first..range.last + 1];
      var cut := CutLayers(m, p.layout, range.first, cs, rest);
      if cut.None? {
        return None;
      }
      SameRange(now, k);
      var loaded := NodeLoad(m, now[k], ShardBytes(p.layout, range, cs, Join(cut.value.0)), p.tokens);
      if loaded.None? {
        return None;
      }
      LoadKeepsRange(m, now, k, ShardBytes(p.layout, range, cs, Join(cut.value.0)), p.tokens);
      now, rest := now[k := loaded.value], cut.value.1;
      k := k + 1;
    }
    if rest != [] {
      return None;
    }
    r := Some((now, p.logits));
  }

  lemma SameRange(nodes: seq<Node>, k: nat)
    requires k < |nodes|
    ensures RouteOf(nodes)[k] == nodes[k].range
  {
  }

  lemma LoadKeepsRange(m: Model, nodes: seq<Node>, k: nat, b: seq<Byte>, tokens: seq<U32>)
    requires k < |nodes| && nodes[k].range.first <= nodes[k].range.last < |m.ratios|
    requires NodeLoad(m, nodes[k], b, tokens).Some?
    ensures RouteOf(nodes[k := NodeLoad(m, nodes[k], b, tokens).value]) == RouteOf(nodes)
  {
  }

  lemma ParsedCounts(m: Model, ctx: U32, b: seq<Byte>)
    requires ParseSession(m, ctx, b).Some?
    ensures |ParseSession(m, ctx, b).value.cs| == |m.ratios|
  {
  }

  /** The nodes after a whole payload. */
  function Restored(m: Model, nodes: seq<Node>, b: seq<Byte>): Option<seq<Node>>
    requires |nodes| > 0 && RouteCovers(|m.ratios|, RouteOf(nodes)) && ParseSession(m, nodes[0].ctx, b).Some?
  {
    var p := ParseSession(m, nodes[0].ctx, b).value;
    ParsedCounts(m, nodes[0].ctx, b);
    LoadShards(m, p, nodes, 0, p.tensors)
  }

  // ---------------------------------------------------------------- a saved payload restores

  /** What the coordinator checks before it cuts a payload into shards. */
  predicate Loadable(m: Model, ctx: U32, y: Layout, tokens: seq<U32>, logits: seq<Byte>) {
    && y.ctx <= ctx && y.tokenCount == |tokens| < ctx
    && |logits| == 4 * m.vocab
    && forall i :: 0 <= i < |tokens| ==> tokens[i] < 0x8000_0000 && tokens[i] < m.vocab
  }

  lemma SessionRoundTrip(m: Model, ctx: U32, y: Layout, tokens: seq<U32>, logits: seq<Byte>, zs: seq<Layer>)
    requires Snapshot(m, y, zs) && Loadable(m, ctx, y, tokens, logits)
    ensures ParseSession(m, ctx, SessionBytes(y, m.vocab, tokens, logits, CountsOf(zs), Join(zs)))
         == Some(Session(y, tokens, logits, CountsOf(zs), Join(zs)))
  {
    hide PutLEWords, GetLEWords, Join, LayersOk, LayerBytes, RawLiveValid, ParseBody, SessionHeader, SessionLayout;
    var cs := CountsOf(zs);
    var head, counts := SessionHeader(y, m.vocab), Comps(cs) + Indexes(cs);
    var tail := PutLEWords(counts) + Join(zs);
    var b := SessionBytes(y, m.vocab, tokens, logits, cs, Join(zs));
    LEWordsRoundTrip(head + tokens, logits + tail);
    HeaderWords(head, tokens, logits + tail);
    LEWordsRoundTrip(counts, Join(zs));
    HeaderFields(y, m.vocab);
    assert (head + tokens)[SESSION_FIELDS..] == tokens;
    var n1 := 4 * (SESSION_FIELDS + |tokens|);
    assert b[n1..] == logits + tail;
    assert b[n1..n1 + |logits|] == logits;
    assert b[n1 + |logits|..] == tail;
    assert b[n1 + |logits| + 4 * |counts|..] == tail[4 * |counts|..];
    BodyRoundTrip(m, y, tokens, logits, zs);
  }

  lemma HeaderFields(y: Layout, vocab: U32)
    ensures var h := SessionHeader(y, vocab);
      h[0] == SESSION_MAGIC && h[1] == SESSION_VERSION && h[11] == vocab && SessionLayout(h) == y
  {
  }

  lemma BodyRoundTrip(m: Model, y: Layout, tokens: seq<U32>, logits: seq<Byte>, zs: seq<Layer>)
    requires Snapshot(m, y, zs) && forall i :: 0 <= i < |tokens| ==> InVocabulary(tokens[i], m.vocab)
    ensures ParseBody(m, y, tokens, logits, Comps(CountsOf(zs)) + Indexes(CountsOf(zs)), Join(zs))
         == Some(Session(y, tokens, logits, CountsOf(zs), Join(zs)))
  {
    hide Join, LayerBytes, RawLiveValid;
    var cs := CountsOf(zs);
    var counts := Comps(cs) + Indexes(cs);
    assert counts[..y.nLayers] == Comps(cs) && counts[y.nLayers..] == Indexes(cs);
    assert Zip(Comps(cs), Indexes(cs)) == cs;
  }

  /** Every node can take its part of a snapshot. */
  predicate Accepted(m: Model, y: Layout, tokens: seq<U32>, zs: seq<Layer>, nodes: seq<Node>) {
    RouteCovers(|zs|, RouteOf(nodes)) &&
    forall k :: 0 <= k < |nodes| ==> NodeAccepts(m, y, tokens, zs, nodes[k])
  }

  predicate NodeAccepts(m: Model, y: Layout, tokens: seq<U32>, zs: seq<Layer>, n: Node) {
    && n.range.first <= n.range.last < |zs|
    && HeaderFits(m, n, y, |tokens|)
    && CountsFit(n, y, CountsOf(Part(zs, n.range)))
  }

  /** A node with its part of a snapshot installed. */
  function Installed(n: Node, tokens: seq<U32>, zs: seq<Layer>): Node
    requires n.range.first <= n.range.last < |zs|
  {
    n.(live := true, tokens := tokens, layers := Part(zs, n.range))
  }

  function InstalledTo(nodes: seq<Node>, tokens: seq<U32>, zs: seq<Layer>, k: nat): (r: seq<Node>)
    requires RouteCovers(|zs|, RouteOf(nodes)) && k <= |nodes|
    ensures |r| == |nodes| && RouteOf(r) == RouteOf(nodes)
  {
    assert forall i :: 0 <= i < |nodes| ==> RouteOf(nodes)[i] == nodes[i].range;
    seq(k, i requires 0 <= i < k => Installed(nodes[i], tokens, zs)) + nodes[k..]
  }

  /** Where shard k's layers start; behind the last shard, the number of layers. */
  function StartOf(nodes: seq<Node>, k: nat): nat
    requires k <= |nodes|
  {
    if k == 0 then 0 else nodes[k - 1].range.last + 1
  }

  lemma {:induction false} LoadsFrom(m: Model, y: Layout, tokens: seq<U32>, logits: seq<Byte>, zs: seq<Layer>,
                                     nodes: seq<Node>, k: nat)
    requires Snapshot(m, y, zs) && Accepted(m, y, tokens, zs, nodes) && k <= |nodes| && StartOf(nodes, k) <= |zs|
    ensures LoadShards(m, Session(y, tokens, logits, CountsOf(zs), Join(zs)), InstalledTo(nodes, tokens, zs, k), k,
                       Join(zs[StartOf(nodes, k)..]))
         == Some(InstalledTo(nodes, tokens, zs, |nodes|))
    decreases |nodes| - k
  {
    hide NodeLoad, CutLayers, ShardBytes, Join, Snapshot, LayersOk, HeaderFits, CountsFit, CountsOf, InstalledTo,
         LayerBytes, Part, RouteOf;
    RangesOf(nodes);
    if k == |nodes| {
      NothingAfter(zs);
    } else {
      SnapshotLayers(m, y, zs);
      var n, r := nodes[k], nodes[k].range;
      assert NodeAccepts(m, y, tokens, zs, n);
      PartOk(m, y, zs, r);
      TailSplits(zs, r);
      CutsWhatWasJoined(m, y, r.first, Part(zs, r), Join(zs[r.last + 1..]));
      NodeLoadsShard(m, n, y, Part(zs, r), tokens);
      InstallOneMore(nodes, tokens, zs, k);
      LoadsFrom(m, y, tokens, logits, zs, nodes, k + 1);
    }
  }

  lemma TailSplits(zs: seq<Layer>, r: Range)
    requires r.first <= r.last < |zs|
    ensures Join(zs[r.first..]) == Join(Part(zs, r)) + Join(zs[r.last + 1..])
  {
    hide Join;
    JoinSplits(zs[r.first..], r.last + 1 - r.first);
    assert zs[r.first..][..r.last + 1 - r.first] == Part(zs, r)
      && zs[r.first..][r.last + 1 - r.first..] == zs[r.last + 1..];
  }

  lemma RangesOf(nodes: seq<Node>)
    ensures forall i :: 0 <= i < |nodes| ==> RouteOf(nodes)[i] == nodes[i].range
  {
  }

  lemma NothingAfter(zs: seq<Layer>)
    ensures Join(zs[|zs|..]) == []
  {
  }

  lemma InstallOneMore(nodes: seq<Node>, tokens: seq<U32>, zs: seq<Layer>, k: nat)
    requires RouteCovers(|zs|, RouteOf(nodes)) && k < |nodes|
    ensures nodes[k].range.first <= nodes[k].range.last < |zs|
    ensures InstalledTo(nodes, tokens, zs, k)[k] == nodes[k]
    ensures InstalledTo(nodes, tokens, zs, k)[k := Installed(nodes[k], tokens, zs)]
      == InstalledTo(nodes, tokens, zs, k + 1)
  {
    RangesOf(nodes);
  }

  /** Restoring is topology-neutral: a payload saved along any route loads along any other whose nodes have
      the capacity, consumes itself to the last byte, and gives each node exactly the row counts and
      tensor bytes of its own layers. */
  lemma RestoreGivesEachNodeItsLayers(m: Model, y: Layout, tokens: seq<U32>, logits: seq<Byte>, zs: seq<Layer>,
                                      nodes: seq<Node>)
    requires Snapshot(m, y, zs) && Accepted(m, y, tokens, zs, nodes) && Loadable(m, nodes[0].ctx, y, tokens, logits)
    ensures var b := SessionBytes(y, m.vocab, tokens, logits, CountsOf(zs), Join(zs));
      && RouteCovers(|m.ratios|, RouteOf(nodes)) && ParseSession(m, nodes[0].ctx, b).Some?
      && ParseSession(m, nodes[0].ctx, b).value.logits == logits
      && Restored(m, nodes, b) == Some(InstalledTo(nodes, tokens, zs, |nodes|))
    ensures forall k :: 0 <= k < |nodes| ==>
      && nodes[k].range.first <= nodes[k].range.last < |zs|
      && InstalledTo(nodes, tokens, zs, |nodes|)[k] == Installed(nodes[k], tokens, zs)
  {
    hide ParseSession, LoadShards, Join, SessionBytes, CountsOf, Loadable, Snapshot, NodeAccepts, LayersOk;
    SnapshotLayers(m, y, zs);
    SessionRoundTrip(m, nodes[0].ctx, y, tokens, logits, zs);
    RangesOf(nodes);
    assert zs[StartOf(nodes, 0)..] == zs;
    assert InstalledTo(nodes, tokens, zs, 0) == nodes;
    LoadsFrom(m, y, tokens, logits, zs, nodes, 0);
  }

  // ---------------------------------------------------------------- and saves again as the same session

  /** The shards that nodes hand out after a restore. */
  function ShardsFrom(m: Model, nodes: seq<Node>): (r: seq<seq<Byte>>)
    requires |m.ratios| < TWO32 && forall k :: 0 <= k < |nodes| ==> |nodes[k].tokens| < TWO32
    ensures |r| == |nodes|
  {
    seq(|nodes|, k requires 0 <= k < |nodes| => NodeSave(m, nodes[k]))
  }

  /** A layout with the same live rows and dimensions describes the same layers. */
  lemma SameShape(m: Model, y: Layout, y': Layout, zs: seq<Layer>)
    requires Snapshot(m, y, zs) && RawLiveValid(y') && y'.nLayers == y.nLayers
    requires y'.rawLive == y.rawLive && y'.headDim == y.headDim && y'.indexerHeadDim == y.indexerHeadDim
    requires y.compCap <= y'.compCap
    ensures Snapshot(m, y', zs)
  {
    hide Join, RowBytes, StateBytes, Add;
    forall i | 0 <= i < |zs|
      ensures CountsOk(y', zs[i].counts)
      ensures LayerBytes(m, y', i, zs[i].counts.nComp, zs[i].counts.nIndex) == Some(|zs[i].tensors|)
    {
      assert CountsOk(y, zs[i].counts)
        && LayerBytes(m, y, 0 + i, zs[i].counts.nComp, zs[i].counts.nIndex) == Some(|zs[i].tensors|);
    }
  }

  /** Saving what was restored, on nodes that agree on a layout of their own, gives the same tokens, logits,
      row counts and tensors under that layout's header. */
  lemma SaveAfterRestore(m: Model, y: Layout, y': Layout, tokens: seq<U32>, zs: seq<Layer>, nodes: seq<Node>)
    requires Snapshot(m, y, zs) && Accepted(m, y, tokens, zs, nodes) && |m.ratios| < TWO32 && |tokens| < TWO32
    requires RawLiveValid(y')
    requires forall k :: 0 <= k < |nodes| ==> NodeLayout(m, nodes[k].(tokens := tokens)) == y'
    ensures var shards := ShardsFrom(m, InstalledTo(nodes, tokens, zs, |nodes|));
      ShardsOf(m, y', zs, RouteOf(nodes), shards) && Snapshot(m, y', zs)
  {
    hide Join, LayersOk, LayerBytes, ShardBytes, CountsOf, CountsFit;
    RangesOf(nodes);
    assert NodeAccepts(m, y, tokens, zs, nodes[0]) && NodeLayout(m, nodes[0].(tokens := tokens)) == y';
    SameShape(m, y, y', zs);
    var after := InstalledTo(nodes, tokens, zs, |nodes|);
    forall k | 0 <= k < |nodes|
      ensures NodeSave(m, after[k])
        == ShardBytes(y', nodes[k].range, CountsOf(Part(zs, nodes[k].range)), Join(Part(zs, nodes[k].range)))
    {
      assert NodeAccepts(m, y, tokens, zs, nodes[k]);
      assert after[k] == Installed(nodes[k], tokens, zs);
      assert NodeLayout(m, after[k]) == NodeLayout(m, nodes[k].(tokens := tokens));
    }
  }

  /** So a session that was saved, restored elsewhere and saved again is the same payload, byte for byte,
      exactly when the layout headers agree. */
  lemma SavedTwice(m: Model, y: Layout, y': Layout, tokens: seq<U32>, logits: seq<Byte>, zs: seq<Layer>)
    requires y.tokenCount == y'.tokenCount == |tokens|
    ensures y == y' <==>
      SessionBytes(y, m.vocab, tokens, logits, CountsOf(zs), Join(zs))
        == SessionBytes(y', m.vocab, tokens, logits, CountsOf(zs), Join(zs))
  {
    hide PutLEWords, GetLEWords, Join, SessionHeader, SessionLayout;
    var rest := logits + (PutLEWords(Comps(CountsOf(zs)) + Indexes(CountsOf(zs))) + Join(zs));
    HeaderWords(SessionHeader(y, m.vocab), tokens, rest);
    HeaderWords(SessionHeader(y', m.vocab), tokens, rest);
    HeaderFields(y, m.vocab);
    HeaderFields(y', m.vocab);
  }
}
