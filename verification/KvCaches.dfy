/** What a node keeps of one layer, and how it is written to and restored from a shard: a ring of raw rows,
    compressed rows, the rolling state of the compressor, and the rows of the indexer. */
module KvCaches {
  import opened Wire
  import opened KvLayout
  import opened KvPayload
  import opened KvRestore
  import opened HalfFloat

  /** A row of floats, by their bits. */
  type Row = seq<U32>

  /** Compressed rows are kept as floats or, on some platforms, as halves. */
  datatype Comp = Floats(rows: seq<Row>) | Halves(codes: seq<seq<U16>>)

  datatype Cache = Cache(
    raw: seq<Row>,                 // a ring: the row of position p is in slot p modulo its size
    comp: Comp,
    stateKv: seq<Row>,
    stateScore: seq<Row>,
    index: seq<Row>,
    indexKv: seq<Row>,
    indexScore: seq<Row>)

  /** At least n rows of a given width. */
  predicate Shaped(rows: seq<Row>, n: nat, width: nat) {
    |rows| >= n && forall i :: 0 <= i < |rows| ==> |rows[i]| == width
  }

  function Coff(ratio: U32): nat {
    if ratio == 4 then 2 else 1
  }

  /** The rolling state of a compressor: Coff * ratio rows, each Coff times as wide as a head. */
  predicate PlaneOk(rows: seq<Row>, ratio: U32, dim: U32) {
    |rows| == Coff(ratio) * ratio && Shaped(rows, 0, Coff(ratio) * dim)
  }

  function Width(c: Comp, i: nat): nat
    requires i < Held(c)
  {
    match c
    case Floats(rows) => |rows[i]|
    case Halves(codes) => |codes[i]|
  }

  function Held(c: Comp): nat {
    match c
    case Floats(rows) => |rows|
    case Halves(codes) => |codes|
  }

  /** The tensors of a layer as a node allocates them. */
  predicate CacheOk(m: Model, layer: nat, rawCap: nat, counts: Counts, c: Cache)
    requires layer < |m.ratios|
  {
    var ratio := m.ratios[layer];
    && |c.raw| == rawCap && Shaped(c.raw, 0, m.headDim)
    && (ratio != 0 ==>
          && Held(c.comp) >= counts.nComp && (forall i :: 0 <= i < Held(c.comp) ==> Width(c.comp, i) == m.headDim)
          && PlaneOk(c.stateKv, ratio, m.headDim) && PlaneOk(c.stateScore, ratio, m.headDim))
    && (ratio == 4 ==>
          && Shaped(c.index, counts.nIndex, m.indexerHeadDim)
          && PlaneOk(c.indexKv, ratio, m.indexerHeadDim) && PlaneOk(c.indexScore, ratio, m.indexerHeadDim))
  }

  // ---------------------------------------------------------------- writing

  function Flat(rows: seq<Row>): seq<U32> {
    if rows == [] then [] else rows[0] + Flat(rows[1..])
  }

  /** The slot of the k-th position from pos on in a ring. */
  function SlotOf(pos: nat, k: nat, cap: nat): (s: nat)
    requires cap > 0
    ensures s < cap
  {
    (pos + k) % cap
  }

  /** The rows of the last `live` positions before `count`, oldest first, out of the ring. */
  function LiveRaw(raw: seq<Row>, count: nat, live: nat): (r: seq<Row>)
    requires live <= count && (live > 0 ==> raw != [])
    ensures |r| == live
  {
    seq(live, k requires 0 <= k < live => raw[SlotOf(count - live, k, |raw|)])
  }

  function DecodeRow(codes: seq<U16>): (r: Row)
    ensures |r| == |codes|
  {
    seq(|codes|, i requires 0 <= i < |codes| => Decode(codes[i]))
  }

  function EncodeRow(row: Row): (r: seq<U16>)
    ensures |r| == |row|
  {
    seq(|row|, i requires 0 <= i < |row| => Encode(row[i]))
  }

  /** The first n compressed rows as floats. */
  function CompRows(c: Comp, n: nat): (r: seq<Row>)
    requires n <= Held(c)
    ensures |r| == n
  {
    match c
    case Floats(rows) => rows[..n]
    case Halves(codes) => seq(n, i requires 0 <= i < n => DecodeRow(codes[i]))
  }

  /** The spans of one layer in the order in which they are written. */
  function Spans(m: Model, layer: nat, count: nat, live: nat, counts: Counts, c: Cache): seq<Row>
    requires layer < |m.ratios| && CacheOk(m, layer, |c.raw|, counts, c) && live <= count && (live > 0 ==> c.raw != [])
  {
    var ratio := m.ratios[layer];
    LiveRaw(c.raw, count, live)
    + (if ratio == 0 then [] else CompRows(c.comp, counts.nComp) + (c.stateKv + c.stateScore))
    + (if ratio != 4 then [] else c.index[..counts.nIndex] + (c.indexKv + c.indexScore))
  }

  function WriteLayer(m: Model, layer: nat, count: nat, live: nat, counts: Counts, c: Cache): seq<Byte>
    requires layer < |m.ratios| && CacheOk(m, layer, |c.raw|, counts, c) && live <= count && (live > 0 ==> c.raw != [])
  {
    PutLEWords(Flat(Spans(m, layer, count, live, counts, c)))
  }

  // ---------------------------------------------------------------- how much is written

  lemma {:induction false} FlatAppend(a: seq<Row>, b: seq<Row>)
    ensures Flat(a + b) == Flat(a) + Flat(b)
  {
    if a == [] {
      assert [] + b == b;
    } else {
      assert (a + b)[1..] == a[1..] + b;
      FlatAppend(a[1..], b);
    }
  }

  lemma {:induction false} FlatSize(rows: seq<Row>, width: nat)
    requires Shaped(rows, 0, width)
    ensures |Flat(rows)| == |rows| * width
  {
    if rows != [] {
      assert forall i :: 0 <= i < |rows[1..]| ==> rows[1..][i] == rows[i + 1];
      FlatSize(rows[1..], width);
      assert (|rows| - 1) * width + width == |rows| * width;
    }
  }

  lemma CompShaped(c: Comp, n: nat, width: nat)
    requires n <= Held(c) && forall i :: 0 <= i < Held(c) ==> Width(c, i) == width
    ensures Shaped(CompRows(c, n), n, width)
  {
    forall i | 0 <= i < n ensures |CompRows(c, n)[i]| == width {
      assert Width(c, i) == width;
    }
  }

  /** A plane of state holds as many floats as its shape says. */
  lemma PlaneSize(rows: seq<Row>, ratio: U32, dim: U32)
    requires PlaneOk(rows, ratio, dim)
    ensures 4 * |Flat(rows)| == ExactState(ratio, dim)
  {
    FlatSize(rows, Coff(ratio) * dim);
    var k: int, r: int, d: int := Coff(ratio), ratio, dim;
    assert (k * r) * (k * d) == k * k * d * r;
  }

  lemma LiveShaped(m: Model, layer: nat, count: nat, live: nat, counts: Counts, c: Cache)
    requires layer < |m.ratios| && CacheOk(m, layer, |c.raw|, counts, c) && live <= count && (live > 0 ==> c.raw != [])
    ensures Shaped(LiveRaw(c.raw, count, live), 0, m.headDim)
  {
    hide PlaneOk;
  }

  lemma SpansSize(m: Model, layer: nat, count: nat, live: nat, counts: Counts, c: Cache)
    requires layer < |m.ratios| && CacheOk(m, layer, |c.raw|, counts, c) && live <= count && (live > 0 ==> c.raw != [])
    ensures 4 * |Flat(Spans(m, layer, count, live, counts, c))|
         == 4 * (live * m.headDim)
          + (if m.ratios[layer] == 0 then 0
            else 4 * (counts.nComp * m.headDim) + 2 * ExactState(m.ratios[layer], m.headDim))
          + (if m.ratios[layer] != 4 then 0
             else 4 * (counts.nIndex * m.indexerHeadDim) + 2 * ExactState(m.ratios[layer], m.indexerHeadDim))
  {
    hide ExactState, PlaneOk, Flat, CompRows;
    var ratio := m.ratios[layer];
    var raw := LiveRaw(c.raw, count, live);
    LiveShaped(m, layer, count, live, counts, c);
    FlatSize(raw, m.headDim);
    var comp := if ratio == 0 then [] else CompRows(c.comp, counts.nComp) + (c.stateKv + c.stateScore);
    var index := if ratio != 4 then [] else c.index[..counts.nIndex] + (c.indexKv + c.indexScore);
    FlatAppend(raw + comp, index);
    FlatAppend(raw, comp);
    NothingFlat();
    if ratio != 0 {
      CompShaped(c.comp, counts.nComp, m.headDim);
      FlatSize(CompRows(c.comp, counts.nComp), m.headDim);
      FlatAppend(CompRows(c.comp, counts.nComp), c.stateKv + c.stateScore);
      FlatAppend(c.stateKv, c.stateScore);
      PlaneSize(c.stateKv, ratio, m.headDim);
      PlaneSize(c.stateScore, ratio, m.headDim);
    }
    if ratio == 4 {
      FlatSize(c.index[..counts.nIndex], m.indexerHeadDim);
      FlatAppend(c.index[..counts.nIndex], c.indexKv + c.indexScore);
      FlatAppend(c.indexKv, c.indexScore);
      PlaneSize(c.indexKv, ratio, m.indexerHeadDim);
      PlaneSize(c.indexScore, ratio, m.indexerHeadDim);
    }
  }

  lemma NothingFlat()
    ensures Flat([]) == []
  {
  }

  /** The computed size of a layer is the number of bytes that a node writes for it, or an overflow is reported. */
  lemma SizeIsWritten(m: Model, y: Layout, layer: nat, count: nat, counts: Counts, c: Cache)
    requires layer < |m.ratios| && CacheOk(m, layer, |c.raw|, counts, c)
    requires y.headDim == m.headDim && y.indexerHeadDim == m.indexerHeadDim
    requires y.rawLive <= count && (y.rawLive > 0 ==> c.raw != [])
    ensures var n := |WriteLayer(m, layer, count, y.rawLive, counts, c)|;
      LayerBytes(m, y, layer, counts.nComp, counts.nIndex) == if n < TWO64 then Some(n) else None
  {
    hide LayerBytes, ExactState, Spans, CacheOk;
    LayerBytesReports(m, y, layer, counts.nComp, counts.nIndex);
    SpansSize(m, layer, count, y.rawLive, counts, c);
    Regroup(y.rawLive, y.headDim);
    Regroup(counts.nComp, y.headDim);
    Regroup(counts.nIndex, y.indexerHeadDim);
  }

  // ---------------------------------------------------------------- restoring

  /** n rows off the front of a stream of floats, and the rest. */
  function TakeRows(words: seq<U32>, n: nat, width: nat): (r: Option<(seq<Row>, seq<U32>)>)
    ensures r.Some? ==> |r.value.0| == n
  {
    if n == 0 then Some(([], words))
    else if |words| < width then None
    else
      var others := TakeRows(words[width..], n - 1, width);
      if others.None? then None else Some(([words[..width]] + others.value.0, others.value.1))
  }

  lemma {:induction false} TakesFlat(rows: seq<Row>, width: nat, rest: seq<U32>)
    requires Shaped(rows, 0, width)
    ensures TakeRows(Flat(rows) + rest, |rows|, width) == Some((rows, rest))
  {
    if rows == [] {
      assert [] + rest == rest;
    } else {
      assert forall i :: 0 <= i < |rows[1..]| ==> rows[1..][i] == rows[i + 1];
      TakesFlat(rows[1..], width, rest);
      assert Flat(rows) + rest == rows[0] + (Flat(rows[1..]) + rest);
      assert rows == [rows[0]] + rows[1..];
    }
  }

  /** Rows of consecutive positions go into the ring slot by slot. */
  function PutRing(ring: seq<Row>, pos: nat, rows: seq<Row>): (r: seq<Row>)
    requires rows != [] ==> ring != []
    ensures |r| == |ring|
    decreases |rows|
  {
    if rows == [] then ring
    else
      var n := |rows| - 1;
      PutRing(ring, pos, rows[..n])[SlotOf(pos, n, |ring|) := rows[n]]
  }

  lemma SlotsApart(pos: nat, k: nat, n: nat, cap: nat)
    requires k < n < k + cap
    ensures SlotOf(pos, k, cap) != SlotOf(pos, n, cap)
  {
    var p, q := (pos + k) / cap, (pos + n) / cap;
    assert pos + k == cap * p + (pos + k) % cap && pos + n == cap * q + (pos + n) % cap;
    if (pos + k) % cap == (pos + n) % cap {
      assert n - k == cap * q - cap * p;
      if p < q { Multiples(cap, p, q); } else { Multiples(cap, q, p); }
    }
  }

  lemma {:induction false} Multiples(cap: nat, p: nat, q: nat)
    requires p <= q
    ensures cap * q - cap * p >= 0 && (p < q ==> cap * q - cap * p >= cap)
    decreases q - p
  {
    if p < q {
      Multiples(cap, p + 1, q);
      assert cap * (p + 1) == cap * p + cap;
    }
  }

  /** Whether a slot belongs to one of n positions from pos on. */
  predicate Taken(slot: nat, pos: nat, n: nat, cap: nat)
    requires cap > 0
  {
    exists k :: 0 <= k < n && SlotOf(pos, k, cap) == slot
  }

  /** Afterwards the ring holds these rows at their positions, and what it held elsewhere. */
  lemma {:induction false} RingHolds(ring: seq<Row>, pos: nat, rows: seq<Row>)
    requires |rows| <= |ring| && ring != []
    ensures forall k :: 0 <= k < |rows| ==> PutRing(ring, pos, rows)[SlotOf(pos, k, |ring|)] == rows[k]
    ensures forall s :: 0 <= s < |ring| && !Taken(s, pos, |rows|, |ring|) ==> PutRing(ring, pos, rows)[s] == ring[s]
    decreases |rows|
  {
    hide SlotOf;
    if rows != [] {
      var n := |rows| - 1;
      var before := rows[..n];
      RingHolds(ring, pos, before);
      forall k | 0 <= k < |rows| ensures PutRing(ring, pos, rows)[SlotOf(pos, k, |ring|)] == rows[k] {
        if k < n { SlotsApart(pos, k, n, |ring|); }
      }
      forall s | 0 <= s < |ring| && !Taken(s, pos, |rows|, |ring|) ensures PutRing(ring, pos, rows)[s] == ring[s] {
        assert SlotOf(pos, n, |ring|) != s;
        assert !Taken(s, pos, n, |ring|);
      }
    }
  }

  /** The row of a position is stored at the position modulo the ring's size, and it is read from there. */
  lemma RowsByPosition(ring: seq<Row>, pos: nat, rows: seq<Row>, k: nat)
    requires |rows| <= |ring| && k < |rows|
    ensures PutRing(ring, pos, rows)[(pos + k) % |ring|] == rows[k]
    ensures LiveRaw(ring, pos + |rows|, |rows|)[k] == ring[(pos + k) % |ring|]
  {
    hide PutRing;
    RingHolds(ring, pos, rows);
    assert SlotOf(pos, k, |ring|) == (pos + k) % |ring|;
  }

  /** Compressed rows are stored from the front, in the platform's own format. */
  function PutComp(had: Comp, rows: seq<Row>): (r: Comp)
    requires |rows| <= Held(had)
    ensures Held(r) == Held(had) && r.Floats? == had.Floats?
  {
    match had
    case Floats(was) => Floats(rows + was[|rows|..])
    case Halves(was) => Halves(seq(|rows|, i requires 0 <= i < |rows| => EncodeRow(rows[i])) + was[|rows|..])
  }

  /** What a node makes of the floats of one layer: its cache, and the floats behind it; none if there are too few. */
  function RestoreLayer(m: Model, layer: nat, count: nat, live: nat, counts: Counts, had: Cache,
                        words: seq<U32>): Option<(Cache, seq<U32>)>
    requires layer < |m.ratios| && live <= count && live <= |had.raw|
    requires m.ratios[layer] != 0 ==> counts.nComp <= Held(had.comp)
    requires m.ratios[layer] == 4 ==> counts.nIndex <= |had.index|
  {
    var ratio := m.ratios[layer];
    var plane, high, wide := Coff(ratio) * ratio, Coff(ratio) * m.headDim, Coff(ratio) * m.indexerHeadDim;
    match TakeRows(words, live, m.headDim)
    case None => None
    case Some((raw, words)) =>
      var c := had.(raw := PutRing(had.raw, count - live, raw));
      if ratio == 0 then Some((c, words))
      else
        match TakeRows(words, counts.nComp, m.headDim)
        case None => None
        case Some((comp, words)) =>
          match TakeRows(words, plane, high)
          case None => None
          case Some((stateKv, words)) =>
            match TakeRows(words, plane, high)
            case None => None
            case Some((stateScore, words)) =>
              var c := c.(comp := PutComp(had.comp, comp), stateKv := stateKv, stateScore := stateScore);
              if ratio != 4 then Some((c, words))
                else RestoreIndex(c, counts.nIndex, plane, m.indexerHeadDim, wide, words)
  }

  function RestoreIndex(c: Cache, nIndex: nat, plane: nat, dim: nat, wide: nat,
                        words: seq<U32>): Option<(Cache, seq<U32>)>
    requires nIndex <= |c.index|
  {
    match TakeRows(words, nIndex, dim)
    case None => None
    case Some((index, words)) =>
      match TakeRows(words, plane, wide)
      case None => None
      case Some((indexKv, words)) =>
        match TakeRows(words, plane, wide)
        case None => None
        case Some((indexScore, words)) =>
          Some((c.(index := index + c.index[nIndex..], indexKv := indexKv, indexScore := indexScore), words))
  }

  /** The cache that a restored layer leaves behind, given what was there before. */
  function Restored(m: Model, layer: nat, count: nat, live: nat, counts: Counts, a: Cache, had: Cache): Cache
    requires layer < |m.ratios| && CacheOk(m, layer, |a.raw|, counts, a) && CacheOk(m, layer, |had.raw|, counts, had)
    requires live <= count && live <= |a.raw| && live <= |had.raw|
  {
    var ratio := m.ratios[layer];
    var c := had.(raw := PutRing(had.raw, count - live, LiveRaw(a.raw, count, live)));
    var d := if ratio == 0 then c
             else c.(comp := PutComp(had.comp, CompRows(a.comp, counts.nComp)), stateKv := a.stateKv,
                     stateScore := a.stateScore);
    if ratio != 4 then d
    else d.(index := a.index[..counts.nIndex] + had.index[counts.nIndex..], indexKv := a.indexKv,
            indexScore := a.indexScore)
  }

  lemma RestoresIndex(c: Cache, a: Cache, nIndex: nat, ratio: U32, dim: U32, rest: seq<U32>)
    requires nIndex <= |c.index| && Shaped(a.index, nIndex, dim) && PlaneOk(a.indexKv, ratio, dim)
    requires PlaneOk(a.indexScore, ratio, dim)
    ensures RestoreIndex(c, nIndex, Coff(ratio) * ratio, dim, Coff(ratio) * dim,
                         Flat(a.index[..nIndex] + (a.indexKv + a.indexScore)) + rest)
         == Some((c.(index := a.index[..nIndex] + c.index[nIndex..], indexKv := a.indexKv,
                     indexScore := a.indexScore), rest))
  {
    hide Flat, TakeRows;
    FlatAppend(a.index[..nIndex], a.indexKv + a.indexScore);
    FlatAppend(a.indexKv, a.indexScore);
    var x, y, z := Flat(a.index[..nIndex]), Flat(a.indexKv), Flat(a.indexScore);
    assert x + (y + z) + rest == x + (y + (z + rest));
    TakesFlat(a.index[..nIndex], dim, y + (z + rest));
    TakesFlat(a.indexKv, Coff(ratio) * dim, z + rest);
    TakesFlat(a.indexScore, Coff(ratio) * dim, rest);
  }

  /** Reading a layer undoes writing it, whatever the reader held before, whatever the two rings' sizes, and whatever
      follows. */
  lemma LayerIsRestored(m: Model, layer: nat, count: nat, live: nat, counts: Counts, a: Cache, had: Cache,
                        rest: seq<U32>)
    requires layer < |m.ratios| && CacheOk(m, layer, |a.raw|, counts, a) && CacheOk(m, layer, |had.raw|, counts, had)
    requires live <= count && live <= |a.raw| && live <= |had.raw|
    ensures RestoreLayer(m, layer, count, live, counts, had, Flat(Spans(m, layer, count, live, counts, a)) + rest)
         == Some((Restored(m, layer, count, live, counts, a, had), rest))
  {
    hide Flat, TakeRows, PutRing, PutComp, CompRows, RestoreIndex;
    var ratio := m.ratios[layer];
    var raw := LiveRaw(a.raw, count, live);
    LiveShaped(m, layer, count, live, counts, a);
    var comp := if ratio == 0 then [] else CompRows(a.comp, counts.nComp) + (a.stateKv + a.stateScore);
    var index := if ratio != 4 then [] else a.index[..counts.nIndex] + (a.indexKv + a.indexScore);
    FlatAppend(raw + comp, index);
    FlatAppend(raw, comp);
    NothingFlat();
    var more := Flat(comp) + (Flat(index) + rest);
    assert Flat(raw) + Flat(comp) + Flat(index) + rest == Flat(raw) + more;
    TakesFlat(raw, m.headDim, more);
    if ratio == 0 {
      assert more == rest;
    } else {
      TakesMiddle(m, ratio, counts, a, Flat(index) + rest);
      if ratio == 4 {
        var c := had.(raw := PutRing(had.raw, count - live, raw),
                      comp := PutComp(had.comp, CompRows(a.comp, counts.nComp)),
                      stateKv := a.stateKv, stateScore := a.stateScore);
        RestoresIndex(c, a, counts.nIndex, ratio, m.indexerHeadDim, rest);
      } else {
        assert Flat(index) + rest == rest;
      }
    }
  }

  lemma TakesMiddle(m: Model, ratio: U32, counts: Counts, a: Cache, rest: seq<U32>)
    requires Held(a.comp) >= counts.nComp && forall i :: 0 <= i < Held(a.comp) ==> Width(a.comp, i) == m.headDim
    requires PlaneOk(a.stateKv, ratio, m.headDim) && PlaneOk(a.stateScore, ratio, m.headDim)
    ensures var rows, wide := CompRows(a.comp, counts.nComp), Coff(ratio) * m.headDim;
      var y, z := Flat(a.stateKv), Flat(a.stateScore);
      && TakeRows(Flat(rows + (a.stateKv + a.stateScore)) + rest, counts.nComp, m.headDim)
        == Some((rows, y + (z + rest)))
      && TakeRows(y + (z + rest), Coff(ratio) * ratio, wide) == Some((a.stateKv, z + rest))
      && TakeRows(z + rest, Coff(ratio) * ratio, wide) == Some((a.stateScore, rest))
  {
    hide Flat, TakeRows, CompRows;
    var rows := CompRows(a.comp, counts.nComp);
    CompShaped(a.comp, counts.nComp, m.headDim);
    FlatAppend(rows, a.stateKv + a.stateScore);
    FlatAppend(a.stateKv, a.stateScore);
    var x, y, z := Flat(rows), Flat(a.stateKv), Flat(a.stateScore);
    assert x + (y + z) + rest == x + (y + (z + rest));
    TakesFlat(rows, m.headDim, y + (z + rest));
    TakesFlat(a.stateKv, Coff(ratio) * m.headDim, z + rest);
    TakesFlat(a.stateScore, Coff(ratio) * m.headDim, rest);
  }

  // ---------------------------------------------------------------- writing again

  /** A float that a half can hold. */
  predicate Survives(c: Comp, w: U32) {
    c.Floats? || Decode(Encode(w)) == w
  }

  /** Every compressed float that arrives is one that the node can keep. */
  predicate AllSurvive(c: Comp, rows: seq<Row>) {
    forall i, k :: 0 <= i < |rows| && 0 <= k < |rows[i]| ==> Survives(c, rows[i][k])
  }

  /** What a node gives back of compressed rows that it was given. */
  lemma CompAgain(had: Comp, rows: seq<Row>)
    requires |rows| <= Held(had)
    ensures CompRows(PutComp(had, rows), |rows|) == rows <==> AllSurvive(had, rows)
  {
    hide Encode, Decode;
    var again := CompRows(PutComp(had, rows), |rows|);
    if had.Halves? {
      forall i | 0 <= i < |rows| ensures again[i] == DecodeRow(EncodeRow(rows[i])) {}
      if again == rows {
        forall i, k | 0 <= i < |rows| && 0 <= k < |rows[i]| ensures Survives(had, rows[i][k]) {
          assert again[i][k] == Decode(Encode(rows[i][k]));
        }
      }
      if AllSurvive(had, rows) {
        forall i | 0 <= i < |rows| ensures again[i] == rows[i] {
          forall k | 0 <= k < |rows[i]| ensures again[i][k] == rows[i][k] {
            assert Survives(had, rows[i][k]);
          }
        }
      }
    } else {
      assert again == rows;
    }
  }

  lemma RestoredIsOk(m: Model, layer: nat, count: nat, live: nat, counts: Counts, a: Cache, had: Cache)
    requires layer < |m.ratios| && CacheOk(m, layer, |a.raw|, counts, a) && CacheOk(m, layer, |had.raw|, counts, had)
    requires live <= count && live <= |a.raw| && live <= |had.raw|
    ensures var c := Restored(m, layer, count, live, counts, a, had);
      && |c.raw| == |had.raw| && CacheOk(m, layer, |had.raw|, counts, c)
      && LiveRaw(c.raw, count, live) == LiveRaw(a.raw, count, live)
  {
    hide CompRows, PutComp, PutRing, Held, Width, PlaneOk;
    RingAgain(m, layer, count, live, counts, a, had);
    if m.ratios[layer] != 0 {
      CompShaped(a.comp, counts.nComp, m.headDim);
      CompKeepsWidth(had.comp, CompRows(a.comp, counts.nComp), m.headDim);
    }
  }

  lemma RingAgain(m: Model, layer: nat, count: nat, live: nat, counts: Counts, a: Cache, had: Cache)
    requires layer < |m.ratios| && CacheOk(m, layer, |a.raw|, counts, a) && CacheOk(m, layer, |had.raw|, counts, had)
    requires live <= count && live <= |a.raw| && live <= |had.raw|
    ensures var raw := LiveRaw(a.raw, count, live);
      var ring := PutRing(had.raw, count - live, raw);
      LiveRaw(ring, count, live) == raw && Shaped(ring, 0, m.headDim)
  {
    hide PutRing, SlotOf, PlaneOk;
    var raw := LiveRaw(a.raw, count, live);
    if live > 0 {
      LiveShaped(m, layer, count, live, counts, a);
      RingHolds(had.raw, count - live, raw);
      RingShaped(had.raw, count - live, raw, m.headDim);
    } else {
      NothingPut(had.raw, count, raw);
    }
  }

  lemma NothingPut(ring: seq<Row>, pos: nat, rows: seq<Row>)
    requires rows == []
    ensures PutRing(ring, pos, rows) == ring
  {
  }

  lemma {:induction false} RingShaped(ring: seq<Row>, pos: nat, rows: seq<Row>, width: nat)
    requires ring != [] && Shaped(ring, 0, width) && Shaped(rows, 0, width)
    ensures Shaped(PutRing(ring, pos, rows), 0, width)
    decreases |rows|
  {
    if rows != [] { RingShaped(ring, pos, rows[..|rows| - 1], width); }
  }

  lemma CompKeepsWidth(had: Comp, rows: seq<Row>, width: nat)
    requires |rows| <= Held(had) && Shaped(rows, 0, width) && forall i :: 0 <= i < Held(had) ==> Width(had, i) == width
    ensures forall i :: 0 <= i < Held(had) ==> Width(PutComp(had, rows), i) == width
  {
    forall i | 0 <= i < Held(had) ensures Width(PutComp(had, rows), i) == width {
      assert Width(had, i) == width;
    }
  }

  /** A layer that was restored and is written again gives the same bytes if and only if the node can keep every
      compressed float that it was given: always if it keeps floats, and otherwise exactly the floats that halves
      can hold. */
  lemma LayerWrittenAgain(m: Model, layer: nat, count: nat, live: nat, counts: Counts, a: Cache, had: Cache)
    requires layer < |m.ratios| && CacheOk(m, layer, |a.raw|, counts, a) && CacheOk(m, layer, |had.raw|, counts, had)
    requires live <= count && live <= |a.raw| && live <= |had.raw|
    ensures var c := Restored(m, layer, count, live, counts, a, had);
      && |c.raw| == |had.raw| && CacheOk(m, layer, |had.raw|, counts, c)
      && (WriteLayer(m, layer, count, live, counts, c) == WriteLayer(m, layer, count, live, counts, a)
          <==> m.ratios[layer] == 0 || AllSurvive(had.comp, CompRows(a.comp, counts.nComp)))
  {
    hide PutRing, PutComp, CompRows, Flat, AllSurvive, CacheOk;
    RestoredIsOk(m, layer, count, live, counts, a, had);
    var ratio, c := m.ratios[layer], Restored(m, layer, count, live, counts, a, had);
    var x, y := Spans(m, layer, count, live, counts, c), Spans(m, layer, count, live, counts, a);
    if ratio != 0 {
      HeldEnough(m, layer, counts, a);
      HeldEnough(m, layer, counts, had);
      CompAgain(had.comp, CompRows(a.comp, counts.nComp));
    }
    SpansAlike(m, layer, count, live, counts, a, had);
    if WriteLayer(m, layer, count, live, counts, c) == WriteLayer(m, layer, count, live, counts, a) {
      WordsOnce(Flat(x), Flat(y));
      SpansOnce(m, layer, count, live, counts, c, a);
    }
  }

  lemma HeldEnough(m: Model, layer: nat, counts: Counts, a: Cache)
    requires layer < |m.ratios| && CacheOk(m, layer, |a.raw|, counts, a) && m.ratios[layer] != 0
    ensures Held(a.comp) >= counts.nComp
  {
  }

  /** The two lists of spans differ at most in their compressed rows. */
  lemma SpansAlike(m: Model, layer: nat, count: nat, live: nat, counts: Counts, a: Cache, had: Cache)
    requires layer < |m.ratios| && CacheOk(m, layer, |a.raw|, counts, a) && CacheOk(m, layer, |had.raw|, counts, had)
    requires live <= count && live <= |a.raw| && live <= |had.raw|
    requires var c := Restored(m, layer, count, live, counts, a, had);
      |c.raw| == |had.raw| && CacheOk(m, layer, |had.raw|, counts, c)
        && LiveRaw(c.raw, count, live) == LiveRaw(a.raw, count, live)
    ensures var c := Restored(m, layer, count, live, counts, a, had);
      m.ratios[layer] == 0 || CompRows(c.comp, counts.nComp) == CompRows(a.comp, counts.nComp)
      ==> Spans(m, layer, count, live, counts, c) == Spans(m, layer, count, live, counts, a)
  {
    hide PutRing, PutComp, CompRows, PlaneOk;
    if m.ratios[layer] == 4 {
      var c := Restored(m, layer, count, live, counts, a, had);
      assert c.index[..counts.nIndex] == a.index[..counts.nIndex];
    }
  }

  lemma {:induction false} WordsOnce(a: seq<U32>, b: seq<U32>)
    requires PutLEWords(a) == PutLEWords(b)
    ensures a == b
  {
    TakesWords(a, []);
    TakesWords(b, []);
    assert PutLEWords(a) + [] == PutLEWords(a) && PutLEWords(b) + [] == PutLEWords(b);
  }

  /** Equal floats of two caches of one shape mean equal compressed rows. */
  lemma SpansOnce(m: Model, layer: nat, count: nat, live: nat, counts: Counts, c: Cache, a: Cache)
    requires layer < |m.ratios| && CacheOk(m, layer, |a.raw|, counts, a) && CacheOk(m, layer, |c.raw|, counts, c)
    requires live <= count && live <= |a.raw| && live <= |c.raw|
    requires Flat(Spans(m, layer, count, live, counts, c)) == Flat(Spans(m, layer, count, live, counts, a))
    ensures m.ratios[layer] == 0 || CompRows(c.comp, counts.nComp) == CompRows(a.comp, counts.nComp)
  {
    hide Flat, TakeRows, CompRows, PlaneOk;
    if m.ratios[layer] != 0 {
      FrontOf(m, layer, count, live, counts, a);
      FrontOf(m, layer, count, live, counts, c);
    }
  }

  lemma FrontOf(m: Model, layer: nat, count: nat, live: nat, counts: Counts, a: Cache)
    requires layer < |m.ratios| && CacheOk(m, layer, |a.raw|, counts, a) && live <= count && live <= |a.raw|
    requires m.ratios[layer] != 0
    ensures var raw := TakeRows(Flat(Spans(m, layer, count, live, counts, a)), live, m.headDim);
      && raw.Some? && TakeRows(raw.value.1, counts.nComp, m.headDim).Some?
      && TakeRows(raw.value.1, counts.nComp, m.headDim).value.0 == CompRows(a.comp, counts.nComp)
  {
    hide Flat, TakeRows, CompRows;
    var ratio := m.ratios[layer];
    var raw := LiveRaw(a.raw, count, live);
    LiveShaped(m, layer, count, live, counts, a);
    var comp := CompRows(a.comp, counts.nComp) + (a.stateKv + a.stateScore);
    var index := if ratio != 4 then [] else a.index[..counts.nIndex] + (a.indexKv + a.indexScore);
    FlatAppend(raw + comp, index);
    FlatAppend(raw, comp);
    assert Flat(raw) + Flat(comp) + Flat(index) == Flat(raw) + (Flat(comp) + Flat(index));
    TakesFlat(raw, m.headDim, Flat(comp) + Flat(index));
    TakesMiddle(m, ratio, counts, a, Flat(index));
  }

  /** Halves that travel between nodes that keep halves survive, all but the NaN codes other than the canonical ones. */
  lemma HalvesSurvive(had: Comp, codes: seq<seq<U16>>, n: nat)
    requires n <= |codes|
    requires forall i, k :: 0 <= i < n && 0 <= k < |codes[i]| ==> !IsNan16(codes[i][k]) || Code16(codes[i][k]) == 0x7e00
    ensures AllSurvive(had, CompRows(Halves(codes), n))
  {
    hide Encode, Decode, IsNan16, Code16;
    var rows := CompRows(Halves(codes), n);
    forall i, k | 0 <= i < |rows| && 0 <= k < |rows[i]| ensures Survives(had, rows[i][k]) {
      assert rows[i][k] == Decode(codes[i][k]);
      ReencodeIsIdentity(codes[i][k]);
    }
  }

  // ---------------------------------------------------------------- a node's shard

  /** A node with the caches of its layers. */
  datatype Graph = Graph(node: Node, counts: seq<Counts>, caches: seq<Cache>)

  predicate RangeOk(m: Model, r: Range) {
    r.first <= r.last < |m.ratios|
  }

  predicate GraphOk(m: Model, g: Graph) {
    && RangeOk(m, g.node.range) && |g.counts| == |g.caches| == Size(g.node.range)
    && forall i :: 0 <= i < |g.caches| ==>
         |g.caches[i].raw| == g.node.rawCap
           && CacheOk(m, g.node.range.first + i, g.node.rawCap, g.counts[i], g.caches[i])
  }

  /** The layers that a node writes into its shard. */
  function Wrote(m: Model, g: Graph, count: nat, live: nat): (zs: seq<Layer>)
    requires GraphOk(m, g) && live <= count && live <= g.node.rawCap
    ensures |zs| == |g.caches|
  {
    seq(|g.caches|, i requires 0 <= i < |g.caches| =>
      Layer(g.counts[i], WriteLayer(m, g.node.range.first + i, count, live, g.counts[i], g.caches[i])))
  }

  /** The header fits what the node is. */
  predicate Announces(m: Model, y: Layout, g: Graph, count: nat) {
    && y.nLayers == |m.ratios| && y.headDim == m.headDim && y.indexerHeadDim == m.indexerHeadDim
    && RawLiveValid(y) && y.rawLive <= count && y.rawLive <= g.node.rawCap
    && forall i :: 0 <= i < |g.counts| ==> CountsOk(y, g.counts[i])
  }

  lemma {:induction false} PartBelow(zs: seq<Layer>, i: nat)
    requires i < |zs|
    ensures |zs[i].tensors| <= |Join(zs)|
  {
    if i > 0 { PartBelow(zs[1..], i - 1); }
  }

  lemma WroteIsOk(m: Model, y: Layout, g: Graph, count: nat)
    requires GraphOk(m, g) && Announces(m, y, g, count) && |Join(Wrote(m, g, count, y.rawLive))| < TWO64
    ensures LayersOk(m, y, g.node.range.first, Wrote(m, g, count, y.rawLive))
    ensures CountsOf(Wrote(m, g, count, y.rawLive)) == g.counts
  {
    hide LayerBytes, WriteLayer, CacheOk, Join;
    var zs := Wrote(m, g, count, y.rawLive);
    forall i | 0 <= i < |zs|
      ensures LayerBytes(m, y, g.node.range.first + i, zs[i].counts.nComp, zs[i].counts.nIndex) == Some(|zs[i].tensors|)
    {
      PartBelow(zs, i);
      SizeIsWritten(m, y, g.node.range.first + i, count, g.counts[i], g.caches[i]);
    }
  }

  /** The coordinator accepts the shard that a node writes, as what was written. */
  lemma WrittenShardIsAccepted(m: Model, y: Layout, g: Graph, count: nat)
    requires GraphOk(m, g) && Announces(m, y, g, count) && |Join(Wrote(m, g, count, y.rawLive))| < TWO64
    ensures var tensors := Join(Wrote(m, g, count, y.rawLive));
      ParseShard(m, ShardBytes(y, g.node.range, g.counts, tensors), g.node.range) == Some(Shard(y, g.counts, tensors))
  {
    hide Join, LayersOk, ShardBytes, ParseShard, Wrote, RawLiveValid;
    WroteIsOk(m, y, g, count);
    WroteSize(m, g, count, y.rawLive);
    ShardRoundTrip(m, y, g.node.range, Wrote(m, g, count, y.rawLive));
  }

  /** The tensors that a node sends under a layout. */
  function SentTensors(m: Model, y: Layout, g: Graph, count: nat): seq<Byte>
    requires GraphOk(m, g) && Announces(m, y, g, count)
  {
    Join(Wrote(m, g, count, y.rawLive))
  }

  /** A node sends its shard of a range: what it holds, behind a header that fits. */
  predicate Sends(m: Model, y: Layout, g: Graph, count: nat, r: Range, shard: seq<Byte>) {
    && GraphOk(m, g) && g.node.range == r && Announces(m, y, g, count) && |SentTensors(m, y, g, count)| < TWO64
    && shard == ShardBytes(y, r, g.counts, SentTensors(m, y, g, count))
  }

  lemma SentIsAccepted(m: Model, y: Layout, g: Graph, count: nat, r: Range, shard: seq<Byte>)
    requires Sends(m, y, g, count, r, shard)
    ensures ShardLayout(m, shard, r) == Some(y) && ShardCounts(m, shard, r) == g.counts
    ensures ShardTensors(m, shard, r) == SentTensors(m, y, g, count)
  {
    hide Join, ShardBytes, ParseShard, Wrote, RawLiveValid, CacheOk;
    WrittenShardIsAccepted(m, y, g, count);
  }

  /** What the nodes of a route send under one layout is always gathered. */
  lemma WrittenRouteIsSaved(m: Model, y: Layout, route: seq<Range>, gs: seq<Graph>, count: nat,
                            shards: seq<seq<Byte>>)
    requires |gs| == |route| == |shards|
    requires forall k :: 0 <= k < |gs| ==> Sends(m, y, gs[k], count, route[k], shards[k])
    ensures GatheredTo(m, route, shards, |route|) && (route != [] ==> ShardLayout(m, shards[0], route[0]) == Some(y))
  {
    hide Sends, ShardLayout;
    forall k | 0 <= k < |route| ensures ShardLayout(m, shards[k], route[k]) == Some(y) {
      SentIsAccepted(m, y, gs[k], count, route[k], shards[k]);
    }
  }

  lemma WroteSize(m: Model, g: Graph, count: nat, live: nat)
    requires GraphOk(m, g) && live <= count && live <= g.node.rawCap
    ensures |Wrote(m, g, count, live)| == g.node.range.last - g.node.range.first + 1
  {
  }

  /** Another node of the same layers has room for these rows, whatever its caches hold and however large they are. */
  predicate HasRoom(m: Model, g: Graph, h: Graph) {
    GraphOk(m, g) && h.node.range == g.node.range && GraphOk(m, h.(counts := g.counts))
  }

  /** The cache of layer i once the node h has restored it from what g wrote. */
  function TakenLayer(m: Model, g: Graph, h: Graph, count: nat, live: nat, i: nat): Cache
    requires HasRoom(m, g, h) && i < |g.caches| && live <= count && live <= g.node.rawCap && live <= h.node.rawCap
  {
    Restored(m, g.node.range.first + i, count, live, g.counts[i], g.caches[i], h.caches[i])
  }

  /** The node after it restored its caches. */
  function RestoredGraph(m: Model, g: Graph, h: Graph, count: nat, live: nat): Graph
    requires HasRoom(m, g, h) && live <= count && live <= g.node.rawCap && live <= h.node.rawCap
  {
    h.(counts := g.counts,
       caches := seq(|g.caches|, i requires 0 <= i < |g.caches| => TakenLayer(m, g, h, count, live, i)))
  }

  /** Reading the bytes of a layer gives this cache and leaves nothing over. */
  predicate Restores(m: Model, layer: nat, count: nat, live: nat, z: Layer, had: Cache, c: Cache)
    requires layer < |m.ratios|
  {
    && |z.tensors| % 4 == 0 && live <= count && live <= |had.raw|
    && (m.ratios[layer] != 0 ==> z.counts.nComp <= Held(had.comp))
    && (m.ratios[layer] == 4 ==> z.counts.nIndex <= |had.index|)
    && RestoreLayer(m, layer, count, live, z.counts, had, GetLEWords(z.tensors, |z.tensors| / 4)) == Some((c, []))
  }

  lemma WrittenLayerIsRestored(m: Model, layer: nat, count: nat, live: nat, counts: Counts, a: Cache, had: Cache)
    requires layer < |m.ratios| && CacheOk(m, layer, |a.raw|, counts, a) && CacheOk(m, layer, |had.raw|, counts, had)
    requires live <= count && live <= |a.raw| && live <= |had.raw|
    ensures Restores(m, layer, count, live, Layer(counts, WriteLayer(m, layer, count, live, counts, a)), had,
                     Restored(m, layer, count, live, counts, a, had))
  {
    hide Spans, Flat, PutLEWords, GetLEWords, RestoreLayer, Restored, PlaneOk, Width;
    var words := Flat(Spans(m, layer, count, live, counts, a));
    LEWordsRoundTrip(words, []);
    assert PutLEWords(words) + [] == PutLEWords(words);
    LayerIsRestored(m, layer, count, live, counts, a, had, []);
    assert words + [] == words;
  }

  lemma RestoresTaken(m: Model, g: Graph, h: Graph, count: nat, live: nat, i: nat)
    requires HasRoom(m, g, h) && i < |g.caches| && live <= count && live <= g.node.rawCap && live <= h.node.rawCap
    ensures Restores(m, g.node.range.first + i, count, live, Wrote(m, g, count, live)[i], h.caches[i],
                     TakenLayer(m, g, h, count, live, i))
  {
    hide Restores, Restored, CacheOk, WriteLayer;
    WrittenLayerIsRestored(m, g.node.range.first + i, count, live, g.counts[i], g.caches[i], h.caches[i]);
  }

  /** The node takes the shard, cut into the layers that were written, and restores every cache from it. */
  lemma WrittenShardIsRestored(m: Model, y: Layout, g: Graph, h: Graph, tokens: seq<U32>)
    requires HasRoom(m, g, h) && Announces(m, y, g, |tokens|)
    requires HeaderFits(m, h.node, y, |tokens|) && CountsFit(h.node, y, g.counts)
    requires |Join(Wrote(m, g, |tokens|, y.rawLive))| < TWO64
    ensures var zs := Wrote(m, g, |tokens|, y.rawLive);
      && NodeLoad(m, h.node, ShardBytes(y, g.node.range, g.counts, Join(zs)), tokens)
           == Some(h.node.(live := true, tokens := tokens, layers := zs))
      && forall i :: 0 <= i < |zs| ==>
           Restores(m, g.node.range.first + i, |tokens|, y.rawLive, zs[i], h.caches[i],
                    RestoredGraph(m, g, h, |tokens|, y.rawLive).caches[i])
  {
    hide Join, LayersOk, ShardBytes, NodeLoad, RawLiveValid, CountsFit, CacheOk, TakenLayer, Wrote, Restores;
    var zs := Wrote(m, g, |tokens|, y.rawLive);
    WroteIsOk(m, y, g, |tokens|);
    WroteSize(m, g, |tokens|, y.rawLive);
    NodeLoadsShard(m, h.node, y, zs, tokens);
    forall i | 0 <= i < |zs|
      ensures Restores(m, g.node.range.first + i, |tokens|, y.rawLive, zs[i], h.caches[i],
                       RestoredGraph(m, g, h, |tokens|, y.rawLive).caches[i])
    {
      RestoresTaken(m, g, h, |tokens|, y.rawLive, i);
    }
  }

  /** The node could keep every compressed float that it was given for layer i. */
  predicate KeepsLayer(m: Model, g: Graph, h: Graph, i: nat)
    requires HasRoom(m, g, h) && i < |g.caches|
  {
    m.ratios[g.node.range.first + i] == 0 || AllSurvive(h.caches[i].comp, CompRows(g.caches[i].comp, g.counts[i].nComp))
  }

  lemma LayerAgain(m: Model, g: Graph, h: Graph, count: nat, live: nat, i: nat)
    requires HasRoom(m, g, h) && i < |g.caches| && live <= count && live <= g.node.rawCap && live <= h.node.rawCap
    ensures var layer, c := g.node.range.first + i, TakenLayer(m, g, h, count, live, i);
      && |c.raw| == h.node.rawCap && CacheOk(m, layer, h.node.rawCap, g.counts[i], c)
      && (WriteLayer(m, layer, count, live, g.counts[i], c)
            == WriteLayer(m, layer, count, live, g.counts[i], g.caches[i])
          <==> KeepsLayer(m, g, h, i))
  {
    hide Restored, CacheOk, WriteLayer, AllSurvive, CompRows;
    LayerWrittenAgain(m, g.node.range.first + i, count, live, g.counts[i], g.caches[i], h.caches[i]);
  }

  /** The restored node writes the same layers again if and only if it could keep every compressed float of every
      layer. */
  lemma ShardWrittenAgain(m: Model, g: Graph, h: Graph, count: nat, live: nat)
    requires HasRoom(m, g, h) && live <= count && live <= g.node.rawCap && live <= h.node.rawCap
    ensures var after := RestoredGraph(m, g, h, count, live);
      && GraphOk(m, after)
      && (Wrote(m, after, count, live) == Wrote(m, g, count, live)
          <==> forall i :: 0 <= i < |g.caches| ==> KeepsLayer(m, g, h, i))
  {
    hide TakenLayer, CacheOk, WriteLayer, KeepsLayer;
    var after := RestoredGraph(m, g, h, count, live);
    forall i | 0 <= i < |g.caches|
      ensures |after.caches[i].raw| == h.node.rawCap
      ensures CacheOk(m, g.node.range.first + i, h.node.rawCap, g.counts[i], after.caches[i])
    {
      LayerAgain(m, g, h, count, live, i);
    }
    var x, y := Wrote(m, after, count, live), Wrote(m, g, count, live);
    forall i | 0 <= i < |y| ensures x[i] == y[i] <==> KeepsLayer(m, g, h, i) {
      LayerAgain(m, g, h, count, live, i);
    }
    assert x == y <==> forall i :: 0 <= i < |y| ==> x[i] == y[i];
  }
}
