/** The converse of the snapshot round trips: everything that a reader accepts is the printed form of some
    snapshot, so saving and loading succeed exactly on snapshots. */
module KvAccepted {
  import opened Wire
  import opened KvLayout
  import opened KvPayload
  import opened KvRestore

  // ---------------------------------------------------------------- layers

  lemma JoinAppend(zs: seq<Layer>, ws: seq<Layer>)
    ensures Join(zs + ws) == Join(zs) + Join(ws) && CountsOf(zs + ws) == CountsOf(zs) + CountsOf(ws)
  {
    hide Join;
    JoinSplits(zs + ws, |zs|);
    assert (zs + ws)[..|zs|] == zs && (zs + ws)[|zs|..] == ws;
  }

  lemma LayersAppend(m: Model, y: Layout, first: nat, zs: seq<Layer>, ws: seq<Layer>)
    requires LayersOk(m, y, first, zs) && LayersOk(m, y, first + |zs|, ws)
    ensures LayersOk(m, y, first, zs + ws)
  {
    hide LayerBytes, CountsOk;
    assert forall i :: 0 <= i < |ws| ==> (zs + ws)[|zs| + i] == ws[i];
  }

  lemma OneLayer(m: Model, y: Layout, first: nat, c: Counts, b: seq<Byte>)
    requires first < |m.ratios| && CountsOk(y, c) && LayerBytes(m, y, first, c.nComp, c.nIndex) == Some(|b|)
    ensures LayersOk(m, y, first, [Layer(c, b)]) && Join([Layer(c, b)]) == b && CountsOf([Layer(c, b)]) == [c]
  {
    hide LayerBytes, CountsOk;
    assert [Layer(c, b)][1..] == [] && b + [] == b;
  }

  /** What was cut off the front of a stream joins up to it again. */
  lemma {:induction false} CutIsJoined(m: Model, y: Layout, first: nat, cs: seq<Counts>, b: seq<Byte>)
    requires first + |cs| <= |m.ratios| && (forall i :: 0 <= i < |cs| ==> CountsOk(y, cs[i]))
    requires CutLayers(m, y, first, cs, b).Some?
    ensures var (zs, rest) := CutLayers(m, y, first, cs, b).value;
      CountsOf(zs) == cs && b == Join(zs) + rest && LayersOk(m, y, first, zs)
    decreases |cs|
  {
    hide LayerBytes, CountsOk, LayersOk, Join, CountsOf;
    if cs == [] {
      NoLayers(m, y, first);
      assert [] + b == b;
    } else {
      var n := LayerBytes(m, y, first, cs[0].nComp, cs[0].nIndex).value;
      var (others, rest) := CutLayers(m, y, first + 1, cs[1..], b[n..]).value;
      CutIsJoined(m, y, first + 1, cs[1..], b[n..]);
      OneLayer(m, y, first, cs[0], b[..n]);
      JoinAppend([Layer(cs[0], b[..n])], others);
      LayersAppend(m, y, first, [Layer(cs[0], b[..n])], others);
      assert cs == [cs[0]] + cs[1..];
      assert b == b[..n] + (Join(others) + rest);
    }
  }

  lemma NoLayers(m: Model, y: Layout, first: nat)
    ensures Join([]) == [] && CountsOf([]) == []
    ensures first <= |m.ratios| ==> LayersOk(m, y, first, [])
  {
  }

  /** Bytes whose number is the summed size of some layers can be cut into them. */
  lemma {:induction false} TotalCuts(m: Model, y: Layout, first: nat, cs: seq<Counts>, b: seq<Byte>)
    returns (zs: seq<Layer>)
    requires first + |cs| <= |m.ratios| && (forall i :: 0 <= i < |cs| ==> CountsOk(y, cs[i]))
    requires TotalBytes(m, y, first, cs) == Some(|b|)
    ensures CountsOf(zs) == cs && Join(zs) == b && LayersOk(m, y, first, zs)
    decreases |cs|
  {
    hide LayerBytes, CountsOk, LayersOk, Join, CountsOf, Add;
    if cs == [] {
      NoLayers(m, y, first);
      zs := [];
    } else {
      var n := |cs| - 1;
      var t := TotalBytes(m, y, first, cs[..n]).value;
      var before := TotalCuts(m, y, first, cs[..n], b[..t]);
      assert |before| == n by { assert |CountsOf(before)| == |before|; }
      OneLayer(m, y, first + n, cs[n], b[t..]);
      zs := before + [Layer(cs[n], b[t..])];
      JoinAppend(before, [Layer(cs[n], b[t..])]);
      LayersAppend(m, y, first, before, [Layer(cs[n], b[t..])]);
      assert cs == cs[..n] + [cs[n]] && b == b[..t] + b[t..];
    }
  }

  // ---------------------------------------------------------------- one shard

  /** Well-formed layers of a range, under a layout that a shard may announce. */
  predicate ShardOk(m: Model, y: Layout, r: Range, zs: seq<Layer>) {
    && r.first <= r.last < y.nLayers && y.nLayers == |m.ratios| && RawLiveValid(y)
    && |zs| == r.last - r.first + 1 && LayersOk(m, y, r.first, zs) && |Join(zs)| < TWO64
  }

  lemma HeaderOfLayout(h: seq<U32>, r: Range)
    requires HeaderNames(h, r)
    ensures LayerHeader(LayoutOf(h), r) == h
  {
  }

  lemma ZipApart(a: seq<U32>, b: seq<U32>)
    requires |a| == |b|
    ensures Comps(Zip(a, b)) == a && Indexes(Zip(a, b)) == b
  {
  }

  /** Bytes that split are the parts put together again. */
  lemma SplitWasJoined(b: seq<Byte>, k: nat)
    requires SplitShard(b, k).Some?
    ensures var (h, cs, tensors) := SplitShard(b, k).value;
      |h| == LAYER_FIELDS && |cs| == k && b == PutLEWords(h + (Comps(cs) + Indexes(cs))) + tensors
  {
    hide PutLEWords, GetLEWords, Zip, Comps, Indexes;
    var f := GetLEWords(b, LAYER_FIELDS + (k + k));
    LEWordBytesRoundTrip(b, LAYER_FIELDS + (k + k));
    ZipApart(f[LAYER_FIELDS..LAYER_FIELDS + k], f[LAYER_FIELDS + k..]);
    assert f == f[..LAYER_FIELDS] + (f[LAYER_FIELDS..LAYER_FIELDS + k] + f[LAYER_FIELDS + k..]);
  }

  lemma AcceptedShard(m: Model, b: seq<Byte>, r: Range) returns (zs: seq<Layer>)
    requires ParseShard(m, b, r).Some?
    ensures var y := ParseShard(m, b, r).value.layout;
      && ShardOk(m, y, r, zs) && b == ShardBytes(y, r, CountsOf(zs), Join(zs))
      && ParseShard(m, b, r).value == Shard(y, CountsOf(zs), Join(zs))
  {
    hide TotalBytes, LayerBytes, LayersOk, Join, CountsOf, SplitShard, HeaderNames, LayoutOf, LayerHeader, RawLiveValid,
         CountsOk;
    var (h, cs, tensors) := SplitShard(b, r.last - r.first + 1).value;
    SplitWasJoined(b, r.last - r.first + 1);
    HeaderOfLayout(h, r);
    zs := TotalCuts(m, LayoutOf(h), r.first, cs, tensors);
    assert |zs| == |CountsOf(zs)|;
  }

  /** A shard is accepted for a range if and only if it is the printed form of well-formed layers of that range. */
  lemma ShardAcceptedIff(m: Model, b: seq<Byte>, r: Range)
    ensures ParseShard(m, b, r).Some? <==>
      exists y, zs :: ShardOk(m, y, r, zs) && b == ShardBytes(y, r, CountsOf(zs), Join(zs))
  {
    hide ParseShard, ShardBytes, Join, CountsOf, LayersOk, RawLiveValid;
    if ParseShard(m, b, r).Some? {
      var zs := AcceptedShard(m, b, r);
    }
    forall y, zs | ShardOk(m, y, r, zs) && b == ShardBytes(y, r, CountsOf(zs), Join(zs))
      ensures ParseShard(m, b, r).Some?
    {
      ShardRoundTrip(m, y, r, zs);
    }
  }

  // ---------------------------------------------------------------- saving

  lemma {:induction false} RangesIncrease(n: nat, route: seq<Range>, i: nat, k: nat)
    requires RouteCovers(n, route) && i < k < |route|
    ensures route[i].last < route[k].first
  {
    if i + 1 < k { RangesIncrease(n, route, i, k - 1); }
  }

  lemma PartOfMore(zs: seq<Layer>, ws: seq<Layer>, r: Range)
    requires r.first <= r.last < |zs|
    ensures Part(zs + ws, r) == Part(zs, r)
  {
  }

  /** Shards that were gathered are the parts of one list of layers. */
  lemma {:induction false} GatheredLayers(m: Model, y: Layout, route: seq<Range>, shards: seq<seq<Byte>>, k: nat)
    returns (zs: seq<Layer>)
    requires |shards| == |route| && RouteCovers(|m.ratios|, route) && k <= |route| && GatheredTo(m, route, shards, k)
    requires ShardLayout(m, shards[0], route[0]) == Some(y)
    ensures |zs| == (if k == 0 then 0 else route[k - 1].last + 1) && LayersOk(m, y, 0, zs)
    ensures CountsTo(m, route, shards, k) == CountsOf(zs) && TensorsTo(m, route, shards, k) == Join(zs)
    ensures forall i ::
      0 <= i < k ==> route[i].last < |zs| && shards[i] == ShardOfLayers(y, route[i], Part(zs, route[i]))
  {
    hide ParseShard, LayersOk, Join, CountsOf, ShardOk, ShardBytes, Part;
    if k == 0 {
      NoLayers(m, y, 0);
      zs := [];
    } else {
      var r := route[k - 1];
      var before := GatheredLayers(m, y, route, shards, k - 1);
      var part := AcceptedShard(m, shards[k - 1], r);
      ShardOkParts(m, y, r, part);
      zs := before + part;
      JoinAppend(before, part);
      LayersAppend(m, y, 0, before, part);
      LastPart(before, part, r);
      forall i | 0 <= i < k - 1
        ensures route[i].last < |zs| && shards[i] == ShardOfLayers(y, route[i], Part(zs, route[i]))
      {
        PartOfMore(before, part, route[i]);
      }
    }
  }

  /** The bytes that hold some layers of a range. */
  function ShardOfLayers(y: Layout, r: Range, zs: seq<Layer>): seq<Byte> {
    ShardBytes(y, r, CountsOf(zs), Join(zs))
  }

  lemma ShardOkParts(m: Model, y: Layout, r: Range, zs: seq<Layer>)
    requires ShardOk(m, y, r, zs)
    ensures |zs| == r.last - r.first + 1 && LayersOk(m, y, r.first, zs)
  {
    hide LayersOk, Join, RawLiveValid;
  }

  lemma LastPart(zs: seq<Layer>, part: seq<Layer>, r: Range)
    requires |zs| == r.first <= r.last && |part| == r.last - r.first + 1
    ensures Part(zs + part, r) == part
  {
  }

  /** A route of shards can be gathered into a payload if and only if the shards are the parts of one snapshot. */
  lemma GatheredIffSnapshot(m: Model, route: seq<Range>, shards: seq<seq<Byte>>)
    requires |m.ratios| > 0 && RouteCovers(|m.ratios|, route) && |shards| == |route|
    requires |TensorsTo(m, route, shards, |route|)| < TWO64
    ensures GatheredTo(m, route, shards, |route|)
      <==> exists y, zs :: Snapshot(m, y, zs) && ShardsOf(m, y, zs, route, shards)
  {
    hide ParseShard, ShardBytes, Join, CountsOf, LayersOk, Snapshot, CountsTo, TensorsTo;
    if GatheredTo(m, route, shards, |route|) {
      var y := ShardLayout(m, shards[0], route[0]).value;
      var zs := GatheredLayers(m, y, route, shards, |route|);
      var first := AcceptedShard(m, shards[0], route[0]);
      SnapshotOf(m, y, route[0], first, zs);
      assert ShardsOf(m, y, zs, route, shards);
    }
    forall y, zs | Snapshot(m, y, zs) && ShardsOf(m, y, zs, route, shards)
      ensures GatheredTo(m, route, shards, |route|)
    {
      SaveIsTopologyNeutral(m, y, zs, route, shards);
    }
  }

  lemma SnapshotOf(m: Model, y: Layout, r: Range, first: seq<Layer>, zs: seq<Layer>)
    requires ShardOk(m, y, r, first) && |m.ratios| > 0
    requires |zs| == |m.ratios| && LayersOk(m, y, 0, zs) && |Join(zs)| < TWO64
    ensures Snapshot(m, y, zs)
  {
    hide LayersOk, Join, RawLiveValid;
  }

  // ---------------------------------------------------------------- loading

  lemma HeaderOfSession(h: seq<U32>)
    requires |h| == SESSION_FIELDS && h[0] == SESSION_MAGIC && h[1] == SESSION_VERSION
    ensures SessionHeader(SessionLayout(h), h[11]) == h
  {
  }

  predicate AllCountsOk(y: Layout, cs: seq<Counts>) {
    forall i :: 0 <= i < |cs| ==> CountsOk(y, cs[i])
  }

  /** A payload that parses is the printed form of what it parses to. */
  lemma ParsedWasPrinted(m: Model, ctx: U32, b: seq<Byte>)
    requires ParseSession(m, ctx, b).Some?
    ensures var p := ParseSession(m, ctx, b).value;
      && b == SessionBytes(p.layout, m.vocab, p.tokens, p.logits, p.cs, p.tensors)
      && Loadable(m, ctx, p.layout, p.tokens, p.logits)
      && |p.cs| == |m.ratios| == p.layout.nLayers && RawLiveValid(p.layout) && AllCountsOk(p.layout, p.cs)
  {
    hide PutLEWords, GetLEWords, Zip, Comps, Indexes, SessionHeader, SessionLayout, RawLiveValid, CountsOk;
    var y := SessionLayout(GetLEWords(b, SESSION_FIELDS));
    var counts := GetLEWords(b[4 * (SESSION_FIELDS + y.tokenCount) + 4 * m.vocab..], y.nLayers + y.nLayers);
    SessionPieces(b, y.tokenCount, m.vocab, y.nLayers);
    HeaderOfSession(GetLEWords(b, SESSION_FIELDS));
    ZipApart(counts[..y.nLayers], counts[y.nLayers..]);
    assert counts == counts[..y.nLayers] + counts[y.nLayers..];
  }

  /** A session payload taken apart into words and bytes, and put together again. */
  lemma SessionPieces(b: seq<Byte>, nTokens: nat, vocab: nat, nLayers: nat)
    requires |b| >= 4 * (SESSION_FIELDS + nTokens) + 4 * vocab + 4 * (nLayers + nLayers)
    ensures var n1 := 4 * (SESSION_FIELDS + nTokens);
      var n2 := n1 + 4 * vocab;
      var n3 := n2 + 4 * (nLayers + nLayers);
      b == PutLEWords(GetLEWords(b, SESSION_FIELDS) + GetLEWords(b, SESSION_FIELDS + nTokens)[SESSION_FIELDS..])
         + (b[n1..n2] + (PutLEWords(GetLEWords(b[n2..], nLayers + nLayers)) + b[n3..]))
  {
    hide PutLEWords, GetLEWords;
    var n1 := 4 * (SESSION_FIELDS + nTokens);
    var n2 := n1 + 4 * vocab;
    var n3 := n2 + 4 * (nLayers + nLayers);
    LEWordBytesRoundTrip(b, SESSION_FIELDS + nTokens);
    FirstWords(b, SESSION_FIELDS, nTokens);
    LEWordBytesRoundTrip(b[n2..], nLayers + nLayers);
    assert b[n2..][..n3 - n2] + b[n3..] == b[n2..];
    assert b == b[..n1] + (b[n1..n2] + b[n2..]);
  }

  /** Reading more words starts with the same words. */
  lemma {:induction false} FirstWords(b: seq<Byte>, n: nat, k: nat)
    requires |b| >= 4 * (n + k)
    ensures GetLEWords(b, n + k) == GetLEWords(b, n) + GetLEWords(b, n + k)[n..]
  {
    hide GetLE32;
    if n > 0 {
      FirstWords(b[4..], n - 1, k);
      assert GetLEWords(b, n + k)[n..] == GetLEWords(b[4..], n - 1 + k)[n - 1..];
    }
  }

  predicate Takes(m: Model, y: Layout, nTokens: nat, cs: seq<Counts>, n: Node) {
    && n.range.first <= n.range.last < |cs|
    && HeaderFits(m, n, y, nTokens) && CountsFit(n, y, cs[n.range.first..n.range.last + 1])
  }

  lemma LoadedNode(m: Model, n: Node, y: Layout, zs: seq<Layer>, tokens: seq<U32>)
    requires n.range.first <= n.range.last < |m.ratios| && |zs| == Size(n.range)
    requires NodeLoad(m, n, ShardBytes(y, n.range, CountsOf(zs), Join(zs)), tokens).Some?
    ensures HeaderFits(m, n, y, |tokens|) && CountsFit(n, y, CountsOf(zs))
  {
    hide LayerBytes, Join, CutLayers, HeaderFits, CountsFit, LayersOk, ShardBytes, LayerHeader, LayoutOf, SplitShard,
         HeaderNames;
    ShardSplits(y, n.range, zs);
  }

  /** One shard on its way: its layers, the bytes behind them, and the nodes after it was installed. */
  lemma LoadStep(m: Model, p: Session, nodes: seq<Node>, k: nat, rest: seq<Byte>)
    returns (part: seq<Layer>, after: seq<Byte>, nodes': seq<Node>)
    requires RouteCovers(|m.ratios|, RouteOf(nodes)) && |p.cs| == |m.ratios| && AllCountsOk(p.layout, p.cs)
    requires k < |nodes| && LoadShards(m, p, nodes, k, rest).Some?
    ensures var r := nodes[k].range;
      && r.first <= r.last < |p.cs| && Takes(m, p.layout, |p.tokens|, p.cs, nodes[k])
      && rest == Join(part) + after && CountsOf(part) == p.cs[r.first..r.last + 1]
        && LayersOk(m, p.layout, r.first, part)
    ensures |nodes'| == |nodes| && RouteOf(nodes') == RouteOf(nodes) && forall i ::
      k < i < |nodes| ==> nodes'[i] == nodes[i]
    ensures LoadShards(m, p, nodes', k + 1, after).Some?
  {
    hide NodeLoad, CutLayers, ShardBytes, Join, LayersOk, HeaderFits, CountsFit, CountsOf, CountsOk, RouteOf;
    RangesOf(nodes);
    var r := nodes[k].range;
    var cs := p.cs[r.first..r.last + 1];
    CutIsJoined(m, p.layout, r.first, cs, rest);
    part, after := CutLayers(m, p.layout, r.first, cs, rest).value.0, CutLayers(m, p.layout, r.first, cs, rest).value.1;
    assert |part| == |CountsOf(part)|;
    LoadedNode(m, nodes[k], p.layout, part, p.tokens);
    LoadKeepsRange(m, nodes, k, ShardBytes(p.layout, r, cs, Join(part)), p.tokens);
    nodes' := nodes[k := NodeLoad(m, nodes[k], ShardBytes(p.layout, r, cs, Join(part)), p.tokens).value];
  }

  /** When all nodes took their shards, the tensors were those of layers, and every node could take its part. */
  lemma {:induction false} LoadedWasJoined(m: Model, p: Session, nodes: seq<Node>, k: nat, rest: seq<Byte>)
    returns (zs: seq<Layer>)
    requires RouteCovers(|m.ratios|, RouteOf(nodes)) && |p.cs| == |m.ratios| && AllCountsOk(p.layout, p.cs)
    requires k <= |nodes| && LoadShards(m, p, nodes, k, rest).Some? && StartOf(nodes, k) <= |p.cs|
    ensures rest == Join(zs) && CountsOf(zs) == p.cs[StartOf(nodes, k)..]
    ensures LayersOk(m, p.layout, StartOf(nodes, k), zs)
    ensures forall i :: k <= i < |nodes| ==> Takes(m, p.layout, |p.tokens|, p.cs, nodes[i])
    decreases |nodes| - k
  {
    hide Join, LayersOk, CountsOf, AllCountsOk, RouteOf, RouteCovers, Takes, LoadShards;
    if k == |nodes| {
      LoadEnds(m, p, nodes, rest);
      NoLayers(m, p.layout, |m.ratios|);
      zs := [];
    } else {
      var r := nodes[k].range;
      var part, after, nodes' := LoadStep(m, p, nodes, k, rest);
      RangeStarts(|m.ratios|, nodes, nodes', k);
      var others := LoadedWasJoined(m, p, nodes', k + 1, after);
      PartInFront(m, p.layout, p.cs, r, part, others);
      zs := part + others;
      forall i | k <= i < |nodes| ensures Takes(m, p.layout, |p.tokens|, p.cs, nodes[i]) {
        if i > k { assert nodes'[i] == nodes[i]; }
      }
    }
  }

  lemma RangeStarts(n: nat, nodes: seq<Node>, nodes': seq<Node>, k: nat)
    requires RouteCovers(n, RouteOf(nodes)) && k < |nodes| == |nodes'| && RouteOf(nodes') == RouteOf(nodes)
    ensures StartOf(nodes, k) == nodes[k].range.first && StartOf(nodes', k + 1) == nodes[k].range.last + 1 <= n
  {
    hide RouteOf;
    RangesOf(nodes);
    RangesOf(nodes');
    assert RouteOf(nodes)[k] == nodes[k].range && RouteOf(nodes')[k] == nodes'[k].range;
  }

  lemma LoadEnds(m: Model, p: Session, nodes: seq<Node>, rest: seq<Byte>)
    requires RouteCovers(|m.ratios|, RouteOf(nodes)) && |p.cs| == |m.ratios|
    requires LoadShards(m, p, nodes, |nodes|, rest).Some?
    ensures rest == [] && |nodes| > 0 && nodes[|nodes| - 1].range.last + 1 == |m.ratios|
  {
    hide RouteOf;
    RangesOf(nodes);
  }

  lemma PartInFront(m: Model, y: Layout, cs: seq<Counts>, r: Range, part: seq<Layer>, others: seq<Layer>)
    requires r.first <= r.last < |cs| && CountsOf(part) == cs[r.first..r.last + 1]
    requires CountsOf(others) == cs[r.last + 1..]
    requires LayersOk(m, y, r.first, part) && LayersOk(m, y, r.last + 1, others)
    ensures Join(part + others) == Join(part) + Join(others)
    ensures CountsOf(part + others) == cs[r.first..] && LayersOk(m, y, r.first, part + others)
  {
    hide Join, LayersOk, CountsOf;
    assert |part| == |CountsOf(part)|;
    JoinAppend(part, others);
    LayersAppend(m, y, r.first, part, others);
    assert cs[r.first..] == cs[r.first..r.last + 1] + cs[r.last + 1..];
  }

  /** A payload is loaded along a route if and only if it is the printed form of a snapshot of which every node
      can take its part. */
  lemma LoadsIffSaved(m: Model, nodes: seq<Node>, b: seq<Byte>)
    requires |m.ratios| > 0 && |nodes| > 0 && RouteCovers(|m.ratios|, RouteOf(nodes)) && |b| < TWO64
    ensures (ParseSession(m, nodes[0].ctx, b).Some? && Restored(m, nodes, b).Some?) <==>
      exists y, tokens, logits, zs ::
        && Snapshot(m, y, zs) && Accepted(m, y, tokens, zs, nodes) && Loadable(m, nodes[0].ctx, y, tokens, logits)
        && b == SessionBytes(y, m.vocab, tokens, logits, CountsOf(zs), Join(zs))
  {
    hide ParseSession, Restored, Snapshot, Accepted, Loadable, SessionBytes, Join, CountsOf, RouteOf;
    if ParseSession(m, nodes[0].ctx, b).Some? && Restored(m, nodes, b).Some? {
      var y, tokens, logits, zs := LoadedPayload(m, nodes, b);
    }
    forall y, tokens, logits, zs |
      && Snapshot(m, y, zs) && Accepted(m, y, tokens, zs, nodes) && Loadable(m, nodes[0].ctx, y, tokens, logits)
      && b == SessionBytes(y, m.vocab, tokens, logits, CountsOf(zs), Join(zs))
      ensures ParseSession(m, nodes[0].ctx, b).Some? && Restored(m, nodes, b).Some?
    {
      RestoreGivesEachNodeItsLayers(m, y, tokens, logits, zs, nodes);
    }
  }

  lemma LoadedPayload(m: Model, nodes: seq<Node>, b: seq<Byte>)
    returns (y: Layout, tokens: seq<U32>, logits: seq<Byte>, zs: seq<Layer>)
    requires |m.ratios| > 0 && |nodes| > 0 && RouteCovers(|m.ratios|, RouteOf(nodes)) && |b| < TWO64
    requires ParseSession(m, nodes[0].ctx, b).Some? && Restored(m, nodes, b).Some?
    ensures Snapshot(m, y, zs) && Accepted(m, y, tokens, zs, nodes) && Loadable(m, nodes[0].ctx, y, tokens, logits)
    ensures b == SessionBytes(y, m.vocab, tokens, logits, CountsOf(zs), Join(zs))
  {
    hide ParseSession, LoadShards, Join, CountsOf, HeaderFits, CountsFit, LayersOk, RawLiveValid, PutLEWords, CountsOk,
         RouteOf;
    var p := ParseSession(m, nodes[0].ctx, b).value;
    ParsedWasPrinted(m, nodes[0].ctx, b);
    zs := LoadedWasJoined(m, p, nodes, 0, p.tensors);
    y, tokens, logits := p.layout, p.tokens, p.logits;
    assert |zs| == |CountsOf(zs)| && p.cs[0..] == p.cs;
    RangesOf(nodes);
    forall k | 0 <= k < |nodes| ensures NodeAccepts(m, y, tokens, zs, nodes[k]) {
      assert Takes(m, y, |tokens|, p.cs, nodes[k]);
      PartCounts(zs, nodes[k].range);
    }
  }

  lemma PartCounts(zs: seq<Layer>, r: Range)
    requires r.first <= r.last < |zs|
    ensures CountsOf(Part(zs, r)) == CountsOf(zs)[r.first..r.last + 1]
  {
  }

  // ---------------------------------------------------------------- from one node to another

  /** A node whose layers are what its own layout says. */
  predicate Whole(m: Model, n: Node) {
    && |m.ratios| < TWO32 && |n.tokens| < TWO32 && n.range.first <= n.range.last < |m.ratios|
    && |n.layers| == Size(n.range) && |Join(n.layers)| < TWO64
    && forall i :: 0 <= i < |n.layers| ==>
         var z := n.layers[i];
         && z.counts.nComp <= n.compCap && z.counts.nIndex <= n.compCap
         && LayerBytes(m, NodeLayout(m, n), n.range.first + i, z.counts.nComp, z.counts.nIndex) == Some(|z.tensors|)
  }

  /** The rows of the last positions that a window covers. */
  function Window(n: Node): nat {
    if |n.tokens| < n.rawWindow then |n.tokens| else n.rawWindow
  }

  /** The coordinator accepts the shard that a node saves if and only if the node has a window and a ring that holds
      it. */
  lemma SavedIsAcceptedIff(m: Model, n: Node)
    requires Whole(m, n)
    ensures ParseShard(m, NodeSave(m, n), n.range).Some? <==> n.rawWindow != 0 && n.rawCap != 0 && Window(n) <= n.rawCap
  {
    hide Join, LayerBytes, ShardBytes, SplitShard, LayerHeader, HeaderNames, LayoutOf, TotalBytes, ParseShard;
    var y := NodeLayout(m, n);
    assert RawLiveValid(y) <==> n.rawWindow != 0 && n.rawCap != 0 && Window(n) <= n.rawCap;
    if RawLiveValid(y) {
      ShardRoundTrip(m, y, n.range, n.layers);
    }
    if ParseShard(m, NodeSave(m, n), n.range).Some? {
      ParsedIsValid(m, y, n.range, n.layers);
    }
  }

  lemma ParsedIsValid(m: Model, y: Layout, r: Range, zs: seq<Layer>)
    requires r.first <= r.last && |zs| == Size(r)
    requires ParseShard(m, ShardBytes(y, r, CountsOf(zs), Join(zs)), r).Some?
    ensures RawLiveValid(y)
  {
    hide Join, ShardBytes, SplitShard, LayerHeader, HeaderNames, LayoutOf, TotalBytes, CountsOf;
    ShardSplits(y, r, zs);
  }

  /** A node takes the shard that another one saved of the same layers if and only if its context is at least as large
      and has room behind the tokens, both have the same window, both rings hold it, and the compressed rows fit. */
  lemma SavedLoadsIff(m: Model, a: Node, b: Node)
    requires Whole(m, a) && b.range == a.range
    ensures NodeLoad(m, b, NodeSave(m, a), a.tokens).Some? <==> (
      && |a.tokens| < b.ctx && a.ctx <= b.ctx && a.rawWindow == b.rawWindow
      && a.rawCap != 0 && Window(a) <= a.rawCap && Window(a) <= b.rawCap && a.compCap <= b.compCap
      && |b.layerCaps| == |a.layers|
      && forall i :: 0 <= i < |a.layers| ==>
           a.layers[i].counts.nComp <= b.layerCaps[i] && a.layers[i].counts.nIndex <= b.layerCaps[i])
  {
    hide Join, LayerBytes, NodeLoad, ShardBytes;
    var y := NodeLayout(m, a);
    assert HeaderFits(m, b, y, |a.tokens|) <==> (
      && |a.tokens| < b.ctx && a.ctx <= b.ctx && a.rawWindow == b.rawWindow
      && a.rawCap != 0 && Window(a) <= a.rawCap && Window(a) <= b.rawCap && a.compCap <= b.compCap);
    if NodeLoad(m, b, NodeSave(m, a), a.tokens).Some? {
      LoadedNode(m, b, y, a.layers, a.tokens);
    }
    assert forall i :: 0 <= i < |a.layers| ==> CountsOf(a.layers)[i] == a.layers[i].counts;
    if HeaderFits(m, b, y, |a.tokens|) && CountsFit(b, y, CountsOf(a.layers)) {
      NodeLoadsShard(m, b, y, a.layers, a.tokens);
    }
  }
}
