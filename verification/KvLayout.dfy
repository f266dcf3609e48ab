/** The sizes of KV tensors in a snapshot, computed in checked 64-bit arithmetic. */
module KvLayout {
  import opened Wire

  /** The fixed shape of the model; ratios has one compression ratio per layer, 0 for none. */
  datatype Model = Model(headDim: U32, indexerHeadDim: U32, vocab: U32, ratios: seq<U32>)

  /** The layout fields that snapshot headers carry. */
  datatype Layout = Layout(
    ctx: U32, prefillCap: U32, rawCap: U32, rawWindow: U32, compCap: U32, tokenCount: U32,
    nLayers: U32, headDim: U32, indexerHeadDim: U32, rawLive: U32)

  predicate RawLiveValid(y: Layout) {
    && y.rawWindow != 0 && y.rawCap != 0
    && y.rawLive == (if y.tokenCount < y.rawWindow then y.tokenCount else y.rawWindow)
    && y.rawLive <= y.rawCap
  }

  // ---------------------------------------------------------------- checked arithmetic

  function Mul(a: Option<U64>, b: U64): (r: Option<U64>)
    ensures r.Some? <==> a.Some? && (a.value as int) * b < TWO64
    ensures r.Some? ==> r.value == (a.value as int) * b
  {
    if a.None? then None
    else
      var x: int := a.value;
      if x != 0 && b > (TWO64 - 1) / x then
        assert x * b >= TWO64 by { QuotientTooSmall(x, b); }
        None
      else
        assert 0 <= x * b < TWO64 by { if x != 0 { QuotientFits(x, b); } }
        Some(x * b)
  }

  lemma TimesMore(x: int, a: int, b: int)
    requires x >= 0 && a <= b
    ensures x * a <= x * b
  {
  }

  lemma QuotientTooSmall(x: int, b: int)
    requires x > 0 && b > (TWO64 - 1) / x
    ensures x * b >= TWO64
  {
    var q := (TWO64 - 1) / x;
    assert x * q + (TWO64 - 1) % x == TWO64 - 1;
    TimesMore(x, q + 1, b);
    assert x * (q + 1) == x * q + x;
  }

  lemma QuotientFits(x: int, b: int)
    requires x > 0 && 0 <= b <= (TWO64 - 1) / x
    ensures 0 <= x * b < TWO64
  {
    var q := (TWO64 - 1) / x;
    assert x * q + (TWO64 - 1) % x == TWO64 - 1;
    TimesMore(x, b, q);
    TimesMore(x, 0, b);
  }

  function Add(a: Option<U64>, b: Option<U64>): (r: Option<U64>)
    ensures r.Some? <==> a.Some? && b.Some? && (a.value as int) + b.value < TWO64
    ensures r.Some? ==> r.value == (a.value as int) + b.value
  {
    if a.None? || b.None? then None
    else
      var x: int := a.value;
      if x > TWO64 - 1 - b.value then None else Some(x + b.value)
  }

  /** Whether checked arithmetic reports a mathematical value, or that it leaves 64 bits. */
  predicate Reports(r: Option<U64>, exact: nat) {
    r == if exact < TWO64 then Some(exact) else None
  }

  // ---------------------------------------------------------------- one layer

  /** The rolling compressor state of a layer. */
  function StateBytes(ratio: U32, dim: U32): Option<U64> {
    var coff := if ratio == 4 then 2 else 1;
    Mul(Mul(Mul(Mul(Some(coff), dim), coff), ratio), 4)
  }

  function RowBytes(rows: U32, dim: U32): Option<U64> {
    Mul(Mul(Some(rows), dim), 4)
  }

  function LayerBytes(m: Model, y: Layout, layer: nat, nComp: U32, nIndex: U32): Option<U64>
    requires layer < |m.ratios|
  {
    var ratio := m.ratios[layer];
    var raw := Add(Some(0), RowBytes(y.rawLive, y.headDim));
    if ratio == 0 then raw
    else
      var attn := Add(Add(Add(raw, RowBytes(nComp, y.headDim)), StateBytes(ratio, y.headDim)),
                      StateBytes(ratio, y.headDim));
      if ratio != 4 then attn
      else Add(Add(Add(attn, RowBytes(nIndex, y.indexerHeadDim)), StateBytes(ratio, y.indexerHeadDim)),
               StateBytes(ratio, y.indexerHeadDim))
  }

  function ExactState(ratio: nat, dim: nat): nat {
    var coff := if ratio == 4 then 2 else 1;
    coff * coff * dim * ratio * 4
  }

  function ExactBytes(m: Model, y: Layout, layer: nat, nComp: nat, nIndex: nat): nat
    requires layer < |m.ratios|
  {
    var ratio := m.ratios[layer];
    4 * y.rawLive * y.headDim
    + (if ratio == 0 then 0 else 4 * nComp * y.headDim + 2 * ExactState(ratio, y.headDim))
    + (if ratio != 4 then 0 else 4 * nIndex * y.indexerHeadDim + 2 * ExactState(ratio, y.indexerHeadDim))
  }

  lemma ProductBelow(x: nat, y: nat, n: nat)
    requires x < n && y < n
    ensures x * y < n * n
  {
    assert n * n - x * y == n * (n - y) + y * (n - x);
    Positive(n, n - y);
    if y > 0 { Positive(y, n - x); }
  }

  lemma Positive(a: nat, b: nat)
    requires a > 0 && b > 0
    ensures a * b > 0
  {
  }

  lemma RowBytesReports(rows: U32, dim: U32)
    ensures Reports(RowBytes(rows, dim), 4 * rows * dim)
  {
    ProductBelow(rows, dim, TWO32);
    Regroup(rows, dim);
    assert Mul(Some(rows), dim) == Some((rows as int) * dim);
  }

  lemma Regroup(rows: nat, dim: nat)
    ensures 4 * rows * dim == rows * dim * 4
  {
  }

  lemma StateBytesReports(ratio: U32, dim: U32)
    ensures Reports(StateBytes(ratio, dim), ExactState(ratio, dim))
  {
    var coff: int := if ratio == 4 then 2 else 1;
    var d: int, r: int := dim, ratio;
    var x := coff * d * coff;
    assert Mul(Mul(Some(coff), dim), coff) == Some(x);
    assert x * r * 4 == ExactState(ratio, dim);
  }

  lemma AddReports(a: Option<U64>, b: Option<U64>, x: nat, y: nat)
    requires Reports(a, x) && Reports(b, y)
    ensures Reports(Add(a, b), x + y)
  {
  }

  /** The checked computation reports the exact size whenever it fits 64 bits, and an overflow otherwise. */
  lemma LayerBytesReports(m: Model, y: Layout, layer: nat, nComp: U32, nIndex: U32)
    requires layer < |m.ratios|
    ensures Reports(LayerBytes(m, y, layer, nComp, nIndex), ExactBytes(m, y, layer, nComp, nIndex))
  {
    hide Add, Mul, RowBytes, StateBytes, ExactState, Reports;
    var ratio := m.ratios[layer];
    var raw, x := Add(Some(0), RowBytes(y.rawLive, y.headDim)), 4 * y.rawLive * y.headDim;
    RowBytesReports(y.rawLive, y.headDim);
    AddReports(Some(0), RowBytes(y.rawLive, y.headDim), 0, x);
    if ratio != 0 {
      var rows, state := RowBytes(nComp, y.headDim), StateBytes(ratio, y.headDim);
      var p, q := 4 * nComp * y.headDim, ExactState(ratio, y.headDim);
      RowBytesReports(nComp, y.headDim);
      StateBytesReports(ratio, y.headDim);
      AddReports(raw, rows, x, p);
      AddReports(Add(raw, rows), state, x + p, q);
      AddReports(Add(Add(raw, rows), state), state, x + p + q, q);
      if ratio == 4 {
        var attn := Add(Add(Add(raw, rows), state), state);
        var irows, istate := RowBytes(nIndex, y.indexerHeadDim), StateBytes(ratio, y.indexerHeadDim);
        var u, v := 4 * nIndex * y.indexerHeadDim, ExactState(ratio, y.indexerHeadDim);
        RowBytesReports(nIndex, y.indexerHeadDim);
        StateBytesReports(ratio, y.indexerHeadDim);
        AddReports(attn, irows, x + p + q + q, u);
        AddReports(Add(attn, irows), istate, x + p + q + q + u, v);
        AddReports(Add(Add(attn, irows), istate), istate, x + p + q + q + u + v, v);
      }
    }
  }

  // ---------------------------------------------------------------- a range of layers

  datatype Counts = Counts(nComp: U32, nIndex: U32)

  /** The size of consecutive layers from `first` on, summed up with overflow checks. */
  function TotalBytes(m: Model, y: Layout, first: nat, cs: seq<Counts>): Option<U64>
    requires first + |cs| <= |m.ratios|
  {
    if cs == [] then Some(0)
    else
      var n := |cs| - 1;
      Add(TotalBytes(m, y, first, cs[..n]), LayerBytes(m, y, first + n, cs[n].nComp, cs[n].nIndex))
  }
}
