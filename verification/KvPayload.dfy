/** KV snapshots: the layer shards of a route are gathered into one session payload, and a session payload
    is split again along any route. */
module KvPayload {
  import opened Wire
  import opened KvLayout

  const SESSION_MAGIC: U32 := 0x34565344
  const SESSION_VERSION: U32 := 2
  const LAYER_MAGIC: U32 := 0x4c565344
  const LAYER_VERSION: U32 := 1
  const SESSION_FIELDS: nat := 13
  const LAYER_FIELDS: nat := 14

  /** The live KV of one layer: its row counts and its tensors, as the bytes the engine writes. */
  datatype Layer = Layer(counts: Counts, tensors: seq<Byte>)

  datatype Range = Range(first: U32, last: U32)

  predicate CountsOk(y: Layout, c: Counts) {
    c.nComp <= y.compCap && c.nIndex <= y.compCap
  }

  predicate LayersOk(m: Model, y: Layout, first: nat, zs: seq<Layer>) {
    && first + |zs| <= |m.ratios|
    && forall i :: 0 <= i < |zs| ==>
         CountsOk(y, zs[i].counts)
           && LayerBytes(m, y, first + i, zs[i].counts.nComp, zs[i].counts.nIndex) == Some(|zs[i].tensors|)
  }

  function CountsOf(zs: seq<Layer>): (cs: seq<Counts>)
    ensures |cs| == |zs|
  {
    seq(|zs|, i requires 0 <= i < |zs| => zs[i].counts)
  }

  function Comps(cs: seq<Counts>): (r: seq<U32>)
    ensures |r| == |cs|
  {
    seq(|cs|, i requires 0 <= i < |cs| => cs[i].nComp)
  }

  function Indexes(cs: seq<Counts>): (r: seq<U32>)
    ensures |r| == |cs|
  {
    seq(|cs|, i requires 0 <= i < |cs| => cs[i].nIndex)
  }

  function Zip(comps: seq<U32>, indexes: seq<U32>): (cs: seq<Counts>)
    requires |comps| == |indexes|
    ensures |cs| == |comps|
  {
    seq(|comps|, i requires 0 <= i < |comps| => Counts(comps[i], indexes[i]))
  }

  function Join(zs: seq<Layer>): seq<Byte> {
    if zs == [] then [] else zs[0].tensors + Join(zs[1..])
  }

  lemma {:induction false} JoinSplits(zs: seq<Layer>, i: nat)
    requires i <= |zs|
    ensures Join(zs) == Join(zs[..i]) + Join(zs[i..])
  {
    if i > 0 {
      JoinSplits(zs[1..], i - 1);
      assert zs[..i][1..] == zs[1..][..i - 1] && zs[i..] == zs[1..][i - 1..];
    } else {
      assert zs[0..] == zs;
    }
  }

  // ---------------------------------------------------------------- cutting tensors out of a stream

  /** Takes consecutive layers off the front of a stream, by their computed sizes. */
  function CutLayers(m: Model, y: Layout, first: nat, cs: seq<Counts>,
                     b: seq<Byte>): (r: Option<(seq<Layer>, seq<Byte>)>)
    requires first + |cs| <= |m.ratios|
    decreases |cs|
  {
    if cs == [] then Some(([], b))
    else
      var size := LayerBytes(m, y, first, cs[0].nComp, cs[0].nIndex);
      if size.None? || size.value > |b| then None
      else
        var others := CutLayers(m, y, first + 1, cs[1..], b[size.value..]);
        if others.None? then None
        else Some(([Layer(cs[0], b[..size.value])] + others.value.0, others.value.1))
  }

  lemma {:induction false} CutsWhatWasJoined(m: Model, y: Layout, first: nat, zs: seq<Layer>, rest: seq<Byte>)
    requires LayersOk(m, y, first, zs)
    ensures CutLayers(m, y, first, CountsOf(zs), Join(zs) + rest) == Some((zs, rest))
    decreases |zs|
  {
    hide LayerBytes;
    if zs == [] {
      assert [] + rest == rest;
    } else {
      var cs, b := CountsOf(zs), Join(zs) + rest;
      assert CountsOf(zs[1..]) == cs[1..];
      assert b == zs[0].tensors + (Join(zs[1..]) + rest);
      assert LayersOk(m, y, first + 1, zs[1..]) by {
        assert forall i :: 0 <= i < |zs[1..]| ==> zs[1..][i] == zs[i + 1];
      }
      CutsWhatWasJoined(m, y, first + 1, zs[1..], rest);
      assert zs == [zs[0]] + zs[1..];
      assert b[..|zs[0].tensors|] == zs[0].tensors && b[|zs[0].tensors|..] == Join(zs[1..]) + rest;
    }
  }

  /** The summed size of some layers is the length of their tensors, as long as that fits 64 bits. */
  lemma {:induction false} TotalIsJoined(m: Model, y: Layout, first: nat, zs: seq<Layer>)
    requires LayersOk(m, y, first, zs) && |Join(zs)| < TWO64
    ensures TotalBytes(m, y, first, CountsOf(zs)) == Some(|Join(zs)|)
    decreases |zs|
  {
    hide LayerBytes, Add;
    if zs != [] {
      var n := |zs| - 1;
      assert CountsOf(zs)[..n] == CountsOf(zs[..n]);
      JoinSplits(zs, n);
      assert zs[n..] == [zs[n]];
      assert Join([zs[n]]) == zs[n].tensors by {
        assert [zs[n]][1..] == [];
        assert zs[n].tensors + [] == zs[n].tensors;
      }
      TotalIsJoined(m, y, first, zs[..n]);
    }
  }

  // ---------------------------------------------------------------- one shard

  function LayerHeader(y: Layout, r: Range): (h: seq<U32>)
    ensures |h| == LAYER_FIELDS
  {
    [LAYER_MAGIC, LAYER_VERSION, y.ctx, y.prefillCap, y.rawCap, y.rawWindow, y.compCap, y.tokenCount, y.nLayers,
     y.headDim, y.indexerHeadDim, r.first, r.last, y.rawLive]
  }

  function LayoutOf(h: seq<U32>): Layout
    requires |h| == LAYER_FIELDS
  {
    Layout(h[2], h[3], h[4], h[5], h[6], h[7], h[8], h[9], h[10], h[13])
  }

  function ShardBytes(y: Layout, r: Range, cs: seq<Counts>, tensors: seq<Byte>): seq<Byte> {
    PutLEWords(LayerHeader(y, r) + (Comps(cs) + Indexes(cs))) + tensors
  }

  datatype Shard = Shard(layout: Layout, cs: seq<Counts>, tensors: seq<Byte>)

  /** A shard of k layers taken apart: header words, row counts, tensors. */
  function SplitShard(b: seq<Byte>, k: nat): Option<(seq<U32>, seq<Counts>, seq<Byte>)> {
    match TakeLEWords(b, LAYER_FIELDS + (k + k))
    case None => None
    case Some((f, tensors)) =>
      Some((f[..LAYER_FIELDS], Zip(f[LAYER_FIELDS..LAYER_FIELDS + k], f[LAYER_FIELDS + k..]), tensors))
  }

  /** Whether header words announce a shard of this range. */
  predicate HeaderNames(h: seq<U32>, r: Range) {
    |h| == LAYER_FIELDS && h[0] == LAYER_MAGIC && h[1] == LAYER_VERSION && h[11] == r.first && h[12] == r.last
  }

  /** The coordinator's check of a shard it was sent for a range of layers. */
  function ParseShard(m: Model, b: seq<Byte>, r: Range): Option<Shard> {
    if r.first > r.last then None
    else
      match SplitShard(b, r.last - r.first + 1)
      case None => None
      case Some((h, cs, tensors)) =>
        if !HeaderNames(h, r) then None
        else
          var y := LayoutOf(h);
          if r.last >= y.nLayers || y.nLayers != |m.ratios| || !RawLiveValid(y) then None
          else if r.first + |cs| > |m.ratios| || exists i :: 0 <= i < |cs| && !CountsOk(y, cs[i]) then None
          else
            var total := TotalBytes(m, y, r.first, cs);
            if total.None? || total.value != |tensors| then None else Some(Shard(y, cs, tensors))
  }

  /** A shard of well-formed layers is accepted, and read back as what was written. */
  lemma ShardRoundTrip(m: Model, y: Layout, r: Range, zs: seq<Layer>)
    requires r.first <= r.last < y.nLayers && y.nLayers == |m.ratios| && RawLiveValid(y)
    requires |zs| == r.last - r.first + 1 && LayersOk(m, y, r.first, zs) && |Join(zs)| < TWO64
    ensures ParseShard(m, ShardBytes(y, r, CountsOf(zs), Join(zs)), r) == Some(Shard(y, CountsOf(zs), Join(zs)))
  {
    hide TotalBytes, LayerBytes, Join, ShardBytes, LayerHeader, LayoutOf, SplitShard, HeaderNames;
    ShardSplits(y, r, zs);
    TotalIsJoined(m, y, r.first, zs);
    assert forall i :: 0 <= i < |zs| ==> CountsOf(zs)[i] == zs[i].counts;
  }

  /** Every reader takes a shard apart into what was put together. */
  lemma ShardSplits(y: Layout, r: Range, zs: seq<Layer>)
    ensures SplitShard(ShardBytes(y, r, CountsOf(zs), Join(zs)), |zs|)
      == Some((LayerHeader(y, r), CountsOf(zs), Join(zs)))
    ensures HeaderNames(LayerHeader(y, r), r) && LayoutOf(LayerHeader(y, r)) == y
  {
    hide PutLEWords, TakeLEWords, Join, LayerHeader, LayoutOf, HeaderNames, CountsOf, Comps, Indexes, Zip, SplitShard;
    HeaderSays(y, r);
    var cs := CountsOf(zs);
    var head, tail := LayerHeader(y, r), Comps(cs) + Indexes(cs);
    Unzip(cs);
    ShardOfWords(head, Comps(cs), Indexes(cs), Join(zs), |zs|);
  }

  lemma ShardOfWords(head: seq<U32>, comps: seq<U32>, indexes: seq<U32>, tensors: seq<Byte>, k: nat)
    requires |head| == LAYER_FIELDS && |comps| == |indexes| == k
    ensures SplitShard(PutLEWords(head + (comps + indexes)) + tensors, k) == Some((head, Zip(comps, indexes), tensors))
  {
    hide PutLEWords, TakeLEWords, Zip;
    TakesWords(head + (comps + indexes), tensors);
    Slices(head, comps, indexes);
  }

  lemma Slices(a: seq<U32>, b: seq<U32>, d: seq<U32>)
    ensures (a + (b + d))[..|a|] == a && (a + (b + d))[|a|..|a| + |b|] == b && (a + (b + d))[|a| + |b|..] == d
  {
  }

  lemma HeaderSays(y: Layout, r: Range)
    ensures HeaderNames(LayerHeader(y, r), r) && LayoutOf(LayerHeader(y, r)) == y
  {
  }

  lemma Unzip(cs: seq<Counts>)
    ensures Zip(Comps(cs), Indexes(cs)) == cs
  {
  }

  lemma HeaderWords(head: seq<U32>, tail: seq<U32>, rest: seq<Byte>)
    ensures |PutLEWords(head + tail) + rest| >= 4 * |head|
    ensures GetLEWords(PutLEWords(head + tail) + rest, |head|) == head
  {
    hide PutLEWords, GetLEWords;
    WordsAppend(head, tail);
    LEWordsRoundTrip(head, PutLEWords(tail) + rest);
    assert PutLEWords(head + tail) + rest == PutLEWords(head) + (PutLEWords(tail) + rest);
  }

  lemma {:induction false} WordsAppend(a: seq<U32>, b: seq<U32>)
    ensures PutLEWords(a + b) == PutLEWords(a) + PutLEWords(b)
  {
    hide PutLE32;
    if a == [] {
      assert a + b == b;
    } else {
      WordsAppend(a[1..], b);
      assert (a + b)[1..] == a[1..] + b && (a + b)[0] == a[0];
      var x := PutLE32(a[0]);
      assert x + (PutLEWords(a[1..]) + PutLEWords(b)) == x + PutLEWords(a[1..]) + PutLEWords(b);
    }
  }

  // ---------------------------------------------------------------- routes

  /** The route validator: contiguous ranges from layer 0 to the last layer. */
  predicate RouteCovers(n: nat, route: seq<Range>) {
    && route != [] && route[0].first == 0
    && (forall k :: 0 <= k < |route| ==> route[k].first <= route[k].last < n)
    && (forall k :: 0 < k < |route| ==> route[k].first == route[k - 1].last + 1)
    && route[|route| - 1].last + 1 == n
  }

  /** The layers that the ranges of a route name, in order. */
  function Named(route: seq<Range>): seq<nat> {
    if route == [] then []
    else
      var r := route[0];
      (if r.first <= r.last then seq(r.last - r.first + 1, i requires i >= 0 => r.first + i) else [])
        + Named(route[1..])
  }

  function Count(from: nat, n: nat): (s: seq<nat>)
    ensures |s| == n
  {
    seq(n, i requires 0 <= i < n => from + i)
  }

  /** The ranges of a route, none of them empty, cover the layers if and only if they name each of them once and in
      order. */
  lemma RouteCoversIff(n: nat, route: seq<Range>)
    requires n > 0
    ensures RouteCovers(n, route) <==>
      (forall k :: 0 <= k < |route| ==> route[k].first <= route[k].last) && Named(route) == Count(0, n)
  {
    hide Named, Count;
    if route == [] {
      NamesNothing(n);
    } else {
      CoversFromIff(0, n, route);
    }
  }

  lemma NamesNothing(n: nat)
    requires n > 0
    ensures Named([]) != Count(0, n)
  {
    assert |Named([])| == 0;
  }

  /** Contiguous from one layer up to n. */
  predicate CoversFrom(from: nat, n: nat, route: seq<Range>) {
    && (forall k :: 0 <= k < |route| ==> route[k].first <= route[k].last < n)
    && (forall k :: 0 < k < |route| ==> route[k].first == route[k - 1].last + 1)
    && route != [] && route[0].first == from && route[|route| - 1].last + 1 == n
  }

  lemma {:induction false} CoversFromIff(from: nat, n: nat, route: seq<Range>)
    requires from < n && route != []
    ensures CoversFrom(from, n, route) <==>
      (forall k :: 0 <= k < |route| ==> route[k].first <= route[k].last) && Named(route) == Count(from, n - from)
    decreases |route|
  {
    var r, rest := route[0], route[1..];
    assert forall k :: 0 <= k < |rest| ==> rest[k] == route[k + 1];
    if r.first <= r.last {
      var size := r.last - r.first + 1;
      FirstNamed(route, from, n);
      if rest == [] {
        assert Named(route) == Count(r.first, size) by { assert Named(rest) == []; }
        assert CoversFrom(from, n, route) <==> r.first == from && r.last + 1 == n;
        if Named(route) == Count(from, n - from) { assert Named(route)[0] == from; }
      } else {
        if r.last + 1 < n { CoversFromIff(r.last + 1, n, rest); }
        CoversRest(from, n, route);
      }
    }
  }

  /** What the first range of a route names, and what is left. */
  lemma FirstNamed(route: seq<Range>, from: nat, n: nat)
    requires route != [] && route[0].first <= route[0].last && from < n
    ensures Named(route) == Count(route[0].first, route[0].last - route[0].first + 1) + Named(route[1..])
    ensures Named(route) == Count(from, n - from) <==>
      route[0].first == from && route[0].last < n
        && Named(route[1..]) == Count(route[0].last + 1, n - route[0].last - 1)
  {
    var r, rest, all := route[0], Named(route[1..]), Named(route);
    var size := r.last - r.first + 1;
    assert all == Count(r.first, size) + rest;
    if all == Count(from, n - from) {
      assert all[0] == r.first && all[0] == from;
      assert rest == all[size..];
      assert rest == Count(r.last + 1, n - r.last - 1);
    }
    if r.first == from && r.last < n && rest == Count(r.last + 1, n - r.last - 1) {
      assert all == Count(from, n - from);
    }
  }

  lemma CoversRest(from: nat, n: nat, route: seq<Range>)
    requires |route| > 1 && route[0].first <= route[0].last && from < n
    ensures CoversFrom(from, n, route) <==>
      route[0].first == from && route[0].last + 1 < n && CoversFrom(route[0].last + 1, n, route[1..])
  {
    var rest := route[1..];
    assert forall k :: 0 <= k < |rest| ==> rest[k] == route[k + 1];
    if CoversFrom(from, n, route) {
      assert route[1].first == route[1 - 1].last + 1;
      forall k | 0 < k < |rest| ensures rest[k].first == rest[k - 1].last + 1 {
        assert route[k + 1].first == route[k + 1 - 1].last + 1;
      }
    }
    if CoversFrom(route[0].last + 1, n, rest) {
      forall k | 0 <= k < |route| ensures k > 0 ==> route[k].first <= route[k].last < n {
        assert k > 0 ==> route[k] == rest[k - 1];
      }
      forall k | 0 < k < |route| ensures route[k].first == route[k - 1].last + 1 {
        if k > 1 { assert rest[k - 1].first == rest[k - 1 - 1].last + 1; }
      }
    }
  }

  /** The layers of one range. */
  function Part(zs: seq<Layer>, r: Range): (p: seq<Layer>)
    requires r.first <= r.last < |zs|
    ensures |p| == r.last - r.first + 1
  {
    zs[r.first..r.last + 1]
  }

  lemma PartOk(m: Model, y: Layout, zs: seq<Layer>, r: Range)
    requires r.first <= r.last < |zs| && LayersOk(m, y, 0, zs)
    ensures LayersOk(m, y, r.first, Part(zs, r))
    ensures |Join(Part(zs, r))| <= |Join(zs)|
    ensures Join(zs[..r.last + 1]) == Join(zs[..r.first]) + Join(Part(zs, r))
    ensures CountsOf(zs)[r.first..r.last + 1] == CountsOf(Part(zs, r))
  {
    hide LayerBytes, Join;
    var upTo := zs[..r.last + 1];
    JoinSplits(zs, r.last + 1);
    JoinSplits(upTo, r.first);
    assert upTo[..r.first] == zs[..r.first] && upTo[r.first..] == Part(zs, r);
    assert forall i :: 0 <= i < |Part(zs, r)| ==> Part(zs, r)[i] == zs[r.first + i];
  }

  // ---------------------------------------------------------------- the whole session

  function SessionHeader(y: Layout, vocab: U32): (h: seq<U32>)
    ensures |h| == SESSION_FIELDS
  {
    [SESSION_MAGIC, SESSION_VERSION, y.ctx, y.prefillCap, y.rawCap, y.rawWindow, y.compCap, y.tokenCount, y.nLayers,
     y.headDim, y.indexerHeadDim, vocab, y.rawLive]
  }

  /** The session payload: header, tokens, logits, row counts of all layers, tensors of all layers. */
  function SessionBytes(y: Layout, vocab: U32, tokens: seq<U32>, logits: seq<Byte>, cs: seq<Counts>,
                        tensors: seq<Byte>): seq<Byte> {
    PutLEWords(SessionHeader(y, vocab) + tokens) + (logits + (PutLEWords(Comps(cs) + Indexes(cs)) + tensors))
  }

  /** The layout an accepted shard announces. */
  function ShardLayout(m: Model, b: seq<Byte>, r: Range): (y: Option<Layout>)
    ensures y.Some? <==> ParseShard(m, b, r).Some?
    ensures y.Some? ==> y.value == ParseShard(m, b, r).value.layout
  {
    match ParseShard(m, b, r)
    case None => None
    case Some(shard) => Some(shard.layout)
  }

  /** The first k shards have been accepted and all have the same layout. */
  predicate GatheredTo(m: Model, route: seq<Range>, shards: seq<seq<Byte>>, k: nat)
    requires |shards| == |route| && k <= |route|
  {
    forall i :: 0 <= i < k ==>
      ShardLayout(m, shards[i], route[i]).Some?
        && ShardLayout(m, shards[i], route[i]) == ShardLayout(m, shards[0], route[0])
  }

  function ShardCounts(m: Model, b: seq<Byte>, r: Range): seq<Counts> {
    match ParseShard(m, b, r)
    case None => []
    case Some(shard) => shard.cs
  }

  function ShardTensors(m: Model, b: seq<Byte>, r: Range): seq<Byte> {
    match ParseShard(m, b, r)
    case None => []
    case Some(shard) => shard.tensors
  }

  /** What the first k shards contribute. */
  function CountsTo(m: Model, route: seq<Range>, shards: seq<seq<Byte>>, k: nat): seq<Counts>
    requires |shards| == |route| && k <= |route|
  {
    if k == 0 then [] else CountsTo(m, route, shards, k - 1) + ShardCounts(m, shards[k - 1], route[k - 1])
  }

  function TensorsTo(m: Model, route: seq<Range>, shards: seq<seq<Byte>>, k: nat): seq<Byte>
    requires |shards| == |route| && k <= |route|
  {
    if k == 0 then [] else TensorsTo(m, route, shards, k - 1) + ShardTensors(m, shards[k - 1], route[k - 1])
  }

  /** Gathers the shards of a route into one payload. */
  method SavePayload(m: Model, route: seq<Range>, tokens: seq<U32>, logits: seq<Byte>, shards: seq<seq<Byte>>)
    returns (r: Option<seq<Byte>>)
    requires |m.ratios| > 0 && |shards| == |route|
    ensures r.Some? <==>
      && RouteCovers(|m.ratios|, route) && GatheredTo(m, route, shards, |route|)
      && ShardLayout(m, shards[0], route[0]).value.tokenCount == |tokens|
    ensures r.Some? ==>
      r.value == SessionBytes(ShardLayout(m, shards[0], route[0]).value, m.vocab, tokens, logits,
                              CountsTo(m, route, shards, |route|), TensorsTo(m, route, shards, |route|))
  {
    hide ParseShard, SessionHeader;
    if !RouteCovers(|m.ratios|, route) {
      return None;
    }
    var layout: Option<Layout>, cs: seq<Counts>, tensors: seq<Byte>, k := None, [], [], 0;
    while k < |route|
      invariant 0 <= k <= |route| && GatheredTo(m, route, shards, k)
      invariant layout == if k > 0 then ShardLayout(m, shards[0], route[0]) else None
      invariant cs == CountsTo(m, route, shards, k) && tensors == TensorsTo(m, route, shards, k)
    {
      var shard := ParseShard(m, shards[k], route[k]);
      if shard.None? || (layout.Some? && shard.value.layout != layout.value) {
        return None;
      }
      layout := Some(shard.value.layout);
      cs, tensors := cs + shard.value.cs, tensors + shard.value.tensors;
      k := k + 1;
    }
    if layout.value.tokenCount != |tokens| {
      return None;
    }
    r := Some(SessionBytes(layout.value, m.vocab, tokens, logits, cs, tensors));
  }

  /** Shards of the same layers, cut along a route. */
  predicate ShardsOf(m: Model, y: Layout, zs: seq<Layer>, route: seq<Range>, shards: seq<seq<Byte>>) {
    && RouteCovers(|zs|, route) && |shards| == |route|
    && forall k ::
      0 <= k < |route| ==> shards[k] == ShardBytes(y, route[k], CountsOf(Part(zs, route[k])), Join(Part(zs, route[k])))
  }

  predicate Snapshot(m: Model, y: Layout, zs: seq<Layer>) {
    && |m.ratios| > 0 && |zs| == y.nLayers == |m.ratios| && RawLiveValid(y)
    && LayersOk(m, y, 0, zs) && |Join(zs)| < TWO64
  }

  lemma ShardParses(m: Model, y: Layout, zs: seq<Layer>, route: seq<Range>, shards: seq<seq<Byte>>, k: nat)
    requires Snapshot(m, y, zs) && ShardsOf(m, y, zs, route, shards) && k < |route|
    ensures ParseShard(m, shards[k], route[k]) == Some(Shard(y, CountsOf(Part(zs, route[k])), Join(Part(zs, route[k]))))
  {
    hide ParseShard, ShardBytes, Join, LayersOk, RawLiveValid;
    PartOk(m, y, zs, route[k]);
    ShardRoundTrip(m, y, route[k], Part(zs, route[k]));
  }

  lemma {:induction false} GathersLayers(m: Model, y: Layout, zs: seq<Layer>, route: seq<Range>,
                                         shards: seq<seq<Byte>>, k: nat)
    requires Snapshot(m, y, zs) && ShardsOf(m, y, zs, route, shards) && k <= |route|
    ensures GatheredTo(m, route, shards, k)
    ensures k > 0 ==> CountsTo(m, route, shards, k) == CountsOf(zs)[..route[k - 1].last + 1]
    ensures k > 0 ==> TensorsTo(m, route, shards, k) == Join(zs[..route[k - 1].last + 1])
  {
    hide ParseShard, ShardBytes, Join, Snapshot, CountsOf;
    forall i | 0 <= i < k
      ensures ParseShard(m, shards[i], route[i])
        == Some(Shard(y, CountsOf(Part(zs, route[i])), Join(Part(zs, route[i]))))
    {
      ShardParses(m, y, zs, route, shards, i);
    }
    if k > 0 {
      GathersLayers(m, y, zs, route, shards, k - 1);
      var r := route[k - 1];
      SnapshotLayers(m, y, zs);
      PartOk(m, y, zs, r);
      var all := CountsOf(zs);
      assert all[..r.last + 1] == all[..r.first] + all[r.first..r.last + 1];
      if k == 1 { NothingBefore(zs); }
    }
  }

  lemma SnapshotLayers(m: Model, y: Layout, zs: seq<Layer>)
    requires Snapshot(m, y, zs)
    ensures LayersOk(m, y, 0, zs) && |zs| == |m.ratios|
  {
  }

  lemma NothingBefore(zs: seq<Layer>)
    ensures Join(zs[..0]) == [] && CountsOf(zs)[..0] == []
  {
  }

  /** Saving is topology-neutral: along whatever route the same layers are gathered, the payload is the same
      bytes, and they do not mention the route. */
  lemma SaveIsTopologyNeutral(m: Model, y: Layout, zs: seq<Layer>, route: seq<Range>, shards: seq<seq<Byte>>)
    requires Snapshot(m, y, zs) && ShardsOf(m, y, zs, route, shards)
    ensures GatheredTo(m, route, shards, |route|)
    ensures ShardLayout(m, shards[0], route[0]) == Some(y)
    ensures CountsTo(m, route, shards, |route|) == CountsOf(zs) && TensorsTo(m, route, shards, |route|) == Join(zs)
  {
    hide ParseShard, ShardBytes, Join, Snapshot, CountsOf, CountsTo, TensorsTo;
    GathersLayers(m, y, zs, route, shards, |route|);
    ShardParses(m, y, zs, route, shards, 0);
    assert zs[..|zs|] == zs && CountsOf(zs)[..|zs|] == CountsOf(zs);
  }
}
