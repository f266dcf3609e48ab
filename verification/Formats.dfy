/** Where the fields of each message stand, byte by byte. */
module Formats {
  import opened Wire
  import TokenHash
  import RouteBlob
  import WorkFrame
  import SnapshotChunks
  import KvLayout
  import KvPayload

  /** The word at byte k in network order, and in the order of snapshot payloads. */
  function BE(b: seq<Byte>, k: nat): nat
    requires k + 4 <= |b|
  {
    var x: nat, y: nat, z: nat := b[k], b[k + 1], b[k + 2];
    x * 0x100_0000 + y * 0x1_0000 + z * 0x100 + b[k + 3]
  }

  function LE(b: seq<Byte>, k: nat): nat
    requires k + 4 <= |b|
  {
    var x: nat, y: nat, z: nat := b[k + 1], b[k + 2], b[k + 3];
    b[k] + x * 0x100 + y * 0x1_0000 + z * 0x100_0000
  }

  /** Two words, the high one first. */
  function BE64(b: seq<Byte>, k: nat): nat
    requires k + 8 <= |b|
  {
    BE(b, k) * 0x1_0000_0000 + BE(b, k + 4)
  }

  /** The i-th word. */
  function Word(b: seq<Byte>, i: nat): nat
    requires 4 * i + 4 <= |b|
  {
    BE(b, 4 * i)
  }

  function LEWord(b: seq<Byte>, i: nat): nat
    requires 4 * i + 4 <= |b|
  {
    LE(b, 4 * i)
  }

  lemma WordBytes(x: U32, rest: seq<Byte>)
    ensures BE(PutBE32(x) + rest, 0) == x && LE(PutLE32(x) + rest, 0) == x
  {
    FourDigits(x);
  }

  lemma Further(a: seq<Byte>, b: seq<Byte>, k: nat)
    requires k + 4 <= |b|
    ensures BE(a + b, |a| + k) == BE(b, k) && LE(a + b, |a| + k) == LE(b, k)
  {
  }

  lemma {:induction false} WordAt(ws: seq<U32>, rest: seq<Byte>, i: nat)
    requires i < |ws|
    ensures BE(PutWords(ws) + rest, 4 * i) == ws[i]
    decreases i
  {
    hide PutBE32, BE, LE;
    var more := PutWords(ws[1..]) + rest;
    assert PutWords(ws) + rest == PutBE32(ws[0]) + more;
    if i == 0 {
      WordBytes(ws[0], more);
    } else {
      WordAt(ws[1..], rest, i - 1);
      Further(PutBE32(ws[0]), more, 4 * (i - 1));
    }
  }

  lemma {:induction false} LEWordAt(ws: seq<U32>, rest: seq<Byte>, i: nat)
    requires i < |ws|
    ensures LE(PutLEWords(ws) + rest, 4 * i) == ws[i]
    decreases i
  {
    hide PutLE32, BE, LE;
    var more := PutLEWords(ws[1..]) + rest;
    assert PutLEWords(ws) + rest == PutLE32(ws[0]) + more;
    if i == 0 {
      WordBytes(ws[0], more);
    } else {
      LEWordAt(ws[1..], rest, i - 1);
      Further(PutLE32(ws[0]), more, 4 * (i - 1));
    }
  }

  // ---------------------------------------------------------------- work frames

  lemma HalvesAt(b: seq<Byte>, k: nat, x: U64)
    requires k + 8 <= |b| && BE(b, k) == High(x) && BE(b, k + 4) == Low(x)
    ensures BE64(b, k) == x
  {
    HalvesRoundTrip(x, 0, 0);
  }

  /** A WORK frame behind its frame header. */
  lemma WorkFormat(f: WorkFrame.Frame)
    requires |f.tokens| == f.work.nTokens && |f.hidden| == f.work.inputBytes
    ensures var b, w := WorkFrame.FrameBytes(f), f.work;
      && |b| == 80 + 4 * w.nTokens + w.inputBytes + |f.blob|
      && BE(b, 0) == w.modelId && BE64(b, 4) == w.session && BE64(b, 12) == w.request
      && BE64(b, 20) == w.prefixHash && BE64(b, 28) == w.resultHash
      && BE(b, 36) == w.pos0 && BE(b, 40) == w.nTokens && BE(b, 44) == w.layerStart && BE(b, 48) == w.layerEnd
      && BE(b, 52) == w.flags && BE(b, 56) == w.tokenBytes && BE(b, 60) == w.inputBytes && BE(b, 64) == w.inputBits
      && BE(b, 68) == w.routeCount && BE(b, 72) == w.routeIndex && BE(b, 76) == w.routeBytes
      && (forall i :: 0 <= i < |f.tokens| ==> BE(b, 80 + 4 * i) == f.tokens[i])
      && b[80 + 4 * w.nTokens..80 + 4 * w.nTokens + w.inputBytes] == f.hidden
      && b[80 + 4 * w.nTokens + w.inputBytes..] == f.blob
  {
    hide BE, BE64, PutWords, WorkFrame.WorkWords;
    var b, w := WorkFrame.FrameBytes(f), f.work;
    var ws, body := WorkFrame.WorkWords(w), f.hidden + f.blob;
    var rest := PutWords(f.tokens) + body;
    forall i | 0 <= i < 20 ensures Word(b, i) == ws[i] { WordAt(ws, rest, i); }
    forall i | 0 <= i < |f.tokens| ensures BE(b, 80 + 4 * i) == f.tokens[i] {
      WordAt(f.tokens, body, i);
      Further(PutWords(ws), rest, 4 * i);
    }
    HeaderAt(b, w);
    assert b[80 + 4 * w.nTokens..] == body;
    assert b[80 + 4 * w.nTokens..80 + 4 * w.nTokens + w.inputBytes] == body[..w.inputBytes];
  }

  lemma HeaderAt(b: seq<Byte>, w: WorkFrame.Work)
    requires |b| >= 80 && forall i :: 0 <= i < 20 ==> Word(b, i) == WorkFrame.WorkWords(w)[i]
    ensures BE(b, 0) == w.modelId && BE64(b, 4) == w.session && BE64(b, 12) == w.request
    ensures BE64(b, 20) == w.prefixHash && BE64(b, 28) == w.resultHash
    ensures BE(b, 36) == w.pos0 && BE(b, 40) == w.nTokens && BE(b, 44) == w.layerStart && BE(b, 48) == w.layerEnd
    ensures BE(b, 52) == w.flags && BE(b, 56) == w.tokenBytes && BE(b, 60) == w.inputBytes && BE(b, 64) == w.inputBits
    ensures BE(b, 68) == w.routeCount && BE(b, 72) == w.routeIndex && BE(b, 76) == w.routeBytes
  {
    hide BE, BE64, High, Low;
    assert Word(b, 0) == BE(b, 0) && Word(b, 1) == BE(b, 4) && Word(b, 2) == BE(b, 8) && Word(b, 3) == BE(b, 12)
      && Word(b, 4) == BE(b, 16) && Word(b, 5) == BE(b, 20) && Word(b, 6) == BE(b, 24) && Word(b, 7) == BE(b, 28)
      && Word(b, 8) == BE(b, 32) && Word(b, 9) == BE(b, 36) && Word(b, 10) == BE(b, 40) && Word(b, 11) == BE(b, 44)
      && Word(b, 12) == BE(b, 48) && Word(b, 13) == BE(b, 52) && Word(b, 14) == BE(b, 56) && Word(b, 15) == BE(b, 60)
      && Word(b, 16) == BE(b, 64) && Word(b, 17) == BE(b, 68) && Word(b, 18) == BE(b, 72) && Word(b, 19) == BE(b, 76);
    HalvesAt(b, 4, w.session);
    HalvesAt(b, 12, w.request);
    HalvesAt(b, 20, w.prefixHash);
    HalvesAt(b, 28, w.resultHash);
  }

  /** The way back behind the last hop of a route payload, as a worker reads it. */
  lemma ReturnFormat(b: seq<Byte>)
    ensures var r := RouteBlob.ReadReturn(b);
      && (r.Some? <==> |b| >= 12 && BE(b, 4) == |b| - 12 && BE(b, 4) < 1025 && 0 !in b[12..])
      && (r.Some? ==> r.value == RouteBlob.Return(BE(b, 0), BE(b, 8), b[12..]))
  {
    hide BE, PutWords;
    if |b| >= 12 {
      WordBytesRoundTrip(b, 3);
      assert b == PutWords(GetWords(b, 3)) + b[12..];
      var ws := GetWords(b, 3);
      WordAt(ws, b[12..], 0);
      WordAt(ws, b[12..], 1);
      WordAt(ws, b[12..], 2);
    }
  }

  /** One hop of the route payload, and the way back that is printed. */
  lemma EntryFormat(e: RouteBlob.Entry, rest: seq<Byte>)
    requires |e.host| < TWO32
    ensures var b := RouteBlob.PrintEntry(e) + rest;
      && |b| == 20 + |e.host| + |rest|
      && BE(b, 0) == |e.host| && BE(b, 4) == e.port && BE(b, 8) == e.layerStart && BE(b, 12) == e.layerEnd
      && BE(b, 16) == e.flags && b[20..20 + |e.host|] == e.host && b[20 + |e.host|..] == rest
    ensures var r := RouteBlob.PrintReturn(); BE(r, 0) == 1 && BE(r, 4) == 0 && BE(r, 8) == 0
  {
    hide BE, PutWords;
    var ws, b := RouteBlob.Fixed(e), RouteBlob.PrintEntry(e) + rest;
    assert b == PutWords(ws) + (e.host + rest);
    forall i | 0 <= i < 5 ensures BE(b, 4 * i) == ws[i] { WordAt(ws, e.host + rest, i); }
    assert BE(b, 4 * 0) == ws[0] && BE(b, 4 * 1) == ws[1] && BE(b, 4 * 2) == ws[2] && BE(b, 4 * 3) == ws[3]
      && BE(b, 4 * 4) == ws[4];
    var r: seq<U32> := [RouteBlob.RETURN_UPSTREAM, 0, 0];
    WordAt(r, [], 0);
    WordAt(r, [], 1);
    WordAt(r, [], 2);
    assert PutWords(r) + [] == RouteBlob.PrintReturn();
  }

  /** A chunk frame, its frame header included. */
  lemma ChunkFormat(request: U64, part: seq<Byte>)
    requires |part| <= SnapshotChunks.CHUNK_BYTES
    ensures var b := SnapshotChunks.ChunkFrame(request, part);
      && |b| == 24 + |part| && BE(b, 0) == 0x44533444 && BE(b, 4) == 7 && BE(b, 8) == 12 + |part|
      && BE64(b, 12) == request && BE(b, 20) == |part| && b[24..] == part
  {
    hide BE, BE64, PutWords, High, Low;
    var ws: seq<U32> := [SnapshotChunks.MAGIC, SnapshotChunks.MSG_SNAPSHOT_CHUNK, SnapshotChunks.FIXED_BYTES + |part|,
                         High(request), Low(request), |part|];
    var b := SnapshotChunks.ChunkFrame(request, part);
    forall i | 0 <= i < 6 ensures BE(b, 4 * i) == ws[i] { WordAt(ws, part, i); }
    assert BE(b, 4 * 0) == ws[0] && BE(b, 4 * 1) == ws[1] && BE(b, 4 * 2) == ws[2] && BE(b, 4 * 3) == ws[3]
      && BE(b, 4 * 4) == ws[4] && BE(b, 4 * 5) == ws[5];
    HalvesAt(b, 12, request);
  }

  // ---------------------------------------------------------------- snapshots

  /** The fields of a layout that both headers carry, from the third word on. */
  predicate LayoutAt(b: seq<Byte>, y: KvLayout.Layout) {
    && |b| >= 44
    && LE(b, 8) == y.ctx && LE(b, 12) == y.prefillCap && LE(b, 16) == y.rawCap && LE(b, 20) == y.rawWindow
    && LE(b, 24) == y.compCap && LE(b, 28) == y.tokenCount && LE(b, 32) == y.nLayers && LE(b, 36) == y.headDim
    && LE(b, 40) == y.indexerHeadDim
  }

  lemma CountsAt(cs: seq<KvLayout.Counts>, rest: seq<Byte>, i: nat)
    requires i < |cs|
    ensures var b := PutLEWords(KvPayload.Comps(cs) + KvPayload.Indexes(cs)) + rest;
      LE(b, 4 * i) == cs[i].nComp && LE(b, 4 * (|cs| + i)) == cs[i].nIndex
  {
    hide LE, PutLEWords;
    LEWordAt(KvPayload.Comps(cs) + KvPayload.Indexes(cs), rest, i);
    LEWordAt(KvPayload.Comps(cs) + KvPayload.Indexes(cs), rest, |cs| + i);
  }

  /** A layer shard: fourteen words, the row counts of its layers, their tensors. */
  lemma ShardFormat(y: KvLayout.Layout, r: KvPayload.Range, cs: seq<KvLayout.Counts>, tensors: seq<Byte>)
    ensures var b := KvPayload.ShardBytes(y, r, cs, tensors);
      && |b| == 56 + 8 * |cs| + |tensors|
      && LE(b, 0) == 0x4c565344 && LE(b, 4) == 1 && LayoutAt(b, y)
      && LE(b, 44) == r.first && LE(b, 48) == r.last && LE(b, 52) == y.rawLive
      && (forall i :: 0 <= i < |cs| ==>
            LE(b, 56 + 4 * i) == cs[i].nComp && LE(b, 56 + 4 * |cs| + 4 * i) == cs[i].nIndex)
      && b[56 + 8 * |cs|..] == tensors
  {
    hide LE, PutLEWords, KvPayload.LayerHeader, KvPayload.Comps, KvPayload.Indexes;
    var head, b := KvPayload.LayerHeader(y, r), KvPayload.ShardBytes(y, r, cs, tensors);
    var rest := PutLEWords(KvPayload.Comps(cs) + KvPayload.Indexes(cs)) + tensors;
    KvPayload.WordsAppend(head, KvPayload.Comps(cs) + KvPayload.Indexes(cs));
    assert b == PutLEWords(head) + rest;
    forall i | 0 <= i < 14 ensures LEWord(b, i) == head[i] { LEWordAt(head, rest, i); }
    forall i | 0 <= i < |cs|
      ensures LE(b, 56 + 4 * i) == cs[i].nComp && LE(b, 56 + 4 * |cs| + 4 * i) == cs[i].nIndex
    {
      CountsAt(cs, tensors, i);
      Further(PutLEWords(head), rest, 4 * i);
      Further(PutLEWords(head), rest, 4 * (|cs| + i));
    }
    LayerHeaderAt(b, y, r);
  }

  lemma LayerHeaderAt(b: seq<Byte>, y: KvLayout.Layout, r: KvPayload.Range)
    requires |b| >= 56 && forall i :: 0 <= i < 14 ==> LEWord(b, i) == KvPayload.LayerHeader(y, r)[i]
    ensures LE(b, 0) == 0x4c565344 && LE(b, 4) == 1 && LayoutAt(b, y)
    ensures LE(b, 44) == r.first && LE(b, 48) == r.last && LE(b, 52) == y.rawLive
  {
    hide LE;
    assert LEWord(b, 0) == LE(b, 0) && LEWord(b, 1) == LE(b, 4) && LEWord(b, 2) == LE(b, 8)
      && LEWord(b, 3) == LE(b, 12) && LEWord(b, 4) == LE(b, 16) && LEWord(b, 5) == LE(b, 20)
      && LEWord(b, 6) == LE(b, 24) && LEWord(b, 7) == LE(b, 28) && LEWord(b, 8) == LE(b, 32)
      && LEWord(b, 9) == LE(b, 36) && LEWord(b, 10) == LE(b, 40) && LEWord(b, 11) == LE(b, 44)
      && LEWord(b, 12) == LE(b, 48) && LEWord(b, 13) == LE(b, 52);
  }

  /** A session payload: thirteen words, the tokens, the logits, the row counts of all layers, their tensors. */
  lemma SessionFormat(y: KvLayout.Layout, vocab: U32, tokens: seq<U32>, logits: seq<Byte>, cs: seq<KvLayout.Counts>,
                      tensors: seq<Byte>)
    ensures var b := KvPayload.SessionBytes(y, vocab, tokens, logits, cs, tensors);
      var n1 := 52 + 4 * |tokens|;
      var n2 := n1 + |logits|;
      && |b| == n2 + 8 * |cs| + |tensors|
      && LE(b, 0) == 0x34565344 && LE(b, 4) == 2 && LayoutAt(b, y) && LE(b, 44) == vocab && LE(b, 48) == y.rawLive
      && (forall i :: 0 <= i < |tokens| ==> LE(b, 52 + 4 * i) == tokens[i])
      && b[n1..n2] == logits
      && (forall i ::
        0 <= i < |cs| ==> LE(b, n2 + 4 * i) == cs[i].nComp && LE(b, n2 + 4 * |cs| + 4 * i) == cs[i].nIndex)
      && b[n2 + 8 * |cs|..] == tensors
  {
    hide LE, PutLEWords, KvPayload.SessionHeader, KvPayload.Comps, KvPayload.Indexes;
    var head, b := KvPayload.SessionHeader(y, vocab), KvPayload.SessionBytes(y, vocab, tokens, logits, cs, tensors);
    var counts := PutLEWords(KvPayload.Comps(cs) + KvPayload.Indexes(cs)) + tensors;
    var n2 := 52 + 4 * |tokens| + |logits|;
    forall i | 0 <= i < 13 ensures LEWord(b, i) == head[i] { LEWordAt(head + tokens, logits + counts, i); }
    forall i | 0 <= i < |tokens| ensures LE(b, 52 + 4 * i) == tokens[i] {
      LEWordAt(head + tokens, logits + counts, 13 + i);
    }
    var before := PutLEWords(head + tokens) + logits;
    assert b == before + counts;
    forall i | 0 <= i < |cs|
      ensures LE(b, n2 + 4 * i) == cs[i].nComp && LE(b, n2 + 4 * |cs| + 4 * i) == cs[i].nIndex
    {
      CountsAt(cs, tensors, i);
      Further(before, counts, 4 * i);
      Further(before, counts, 4 * (|cs| + i));
    }
    SessionHeaderAt(b, y, vocab);
  }

  lemma SessionHeaderAt(b: seq<Byte>, y: KvLayout.Layout, vocab: U32)
    requires |b| >= 52 && forall i :: 0 <= i < 13 ==> LEWord(b, i) == KvPayload.SessionHeader(y, vocab)[i]
    ensures LE(b, 0) == 0x34565344 && LE(b, 4) == 2 && LayoutAt(b, y) && LE(b, 44) == vocab && LE(b, 48) == y.rawLive
  {
    hide LE;
    assert LEWord(b, 0) == LE(b, 0) && LEWord(b, 1) == LE(b, 4) && LEWord(b, 2) == LE(b, 8)
      && LEWord(b, 3) == LE(b, 12) && LEWord(b, 4) == LE(b, 16) && LEWord(b, 5) == LE(b, 20)
      && LEWord(b, 6) == LE(b, 24) && LEWord(b, 7) == LE(b, 28) && LEWord(b, 8) == LE(b, 32)
      && LEWord(b, 9) == LE(b, 36) && LEWord(b, 10) == LE(b, 40) && LEWord(b, 11) == LE(b, 44)
      && LEWord(b, 12) == LE(b, 48);
  }
}
