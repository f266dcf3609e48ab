/** WORK frames: how the coordinator fills one in, how a hop rewrites it for the next, and what a worker
    checks before it touches its session. */
module WorkFrame {
  import opened Wire
  import opened TokenHash
  import opened RouteBlob
  import RouteSearch

  const WORK_BYTES: nat := 80

  /** The four flags a frame may carry. */
  datatype Flags = Flags(inputHc: bool, outputLogits: bool, reset: bool, ackOnly: bool)

  function FlagWord(f: Flags): U32 {
    (if f.inputHc then 1 else 0) + (if f.outputLogits then 2 else 0) + (if f.reset then 4 else 0)
      + (if f.ackOnly then 8 else 0)
  }

  function FlagsOf(word: U32): Flags {
    Flags(word % 2 == 1, word / 2 % 2 == 1, word / 4 % 2 == 1, word / 8 % 2 == 1)
  }

  lemma FlagsRoundTrip(f: Flags)
    ensures FlagsOf(FlagWord(f)) == f && FlagWord(f) < 16
  {
  }

  datatype Work = Work(
    modelId: U32, session: U64, request: U64, prefixHash: U64, resultHash: U64,
    pos0: U32, nTokens: U32, layerStart: U32, layerEnd: U32, flags: U32,
    tokenBytes: U32, inputBytes: U32, inputBits: U32, routeCount: U32, routeIndex: U32, routeBytes: U32)

  function WorkWords(w: Work): (r: seq<U32>)
    ensures |r| == 20
  {
    [w.modelId, High(w.session), Low(w.session), High(w.request), Low(w.request),
     High(w.prefixHash), Low(w.prefixHash), High(w.resultHash), Low(w.resultHash),
     w.pos0, w.nTokens, w.layerStart, w.layerEnd, w.flags,
     w.tokenBytes, w.inputBytes, w.inputBits, w.routeCount, w.routeIndex, w.routeBytes]
  }

  function WorkOf(f: seq<U32>): Work
    requires |f| == 20
  {
    Work(f[0], FromHalves(f[1], f[2]), FromHalves(f[3], f[4]), FromHalves(f[5], f[6]), FromHalves(f[7], f[8]),
         f[9], f[10], f[11], f[12], f[13], f[14], f[15], f[16], f[17], f[18], f[19])
  }

  lemma WorkRoundTrip(w: Work)
    ensures WorkOf(WorkWords(w)) == w
  {
    HalvesRoundTrip(w.session, 0, 0);
    HalvesRoundTrip(w.request, 0, 0);
    HalvesRoundTrip(w.prefixHash, 0, 0);
    HalvesRoundTrip(w.resultHash, 0, 0);
  }

  // ---------------------------------------------------------------- activation sizes

  function BitsOrDefault(bits: U32): U32 {
    if bits == 0 then 32 else bits
  }

  predicate BitsValid(bits: U32) {
    BitsOrDefault(bits) == 32 || BitsOrDefault(bits) == 16 || BitsOrDefault(bits) == 8
  }

  /** Bytes on the wire for some float values, when the width is known and the size fits 32 bits. */
  function WireBytes(bits: U32, values: nat): (r: Option<U32>)
    ensures r.Some? ==> BitsValid(bits) && r.value == values * (BitsOrDefault(bits) / 8)
  {
    if !BitsValid(bits) || values * (BitsOrDefault(bits) / 8) >= TWO32 then None
    else Some(values * (BitsOrDefault(bits) / 8))
  }

  /** Bytes on the wire for a float buffer of the given size. */
  function WireBytesOfFloats(bits: U32, floatBytes: nat): Option<U32> {
    if floatBytes % 4 != 0 then None else WireBytes(bits, floatBytes / 4)
  }

  // ---------------------------------------------------------------- sending

  /** A frame as a whole: header, tokens, activation bytes, route payload. */
  datatype Frame = Frame(work: Work, tokens: seq<U32>, hidden: seq<Byte>, blob: seq<Byte>)

  /** What the sender checks before it writes anything. */
  predicate Sendable(f: Frame) {
    && f.work.nTokens == |f.tokens| > 0
    && f.work.tokenBytes == 4 * f.work.nTokens
    && f.work.inputBytes == |f.hidden| && f.work.routeBytes == |f.blob|
    && (f.work.inputBytes != 0
      ==> BitsValid(f.work.inputBits) && f.work.inputBytes % (BitsOrDefault(f.work.inputBits) / 8) == 0)
    && WORK_BYTES + f.work.tokenBytes + f.work.inputBytes + f.work.routeBytes < TWO32
  }

  function FrameBytes(f: Frame): seq<Byte> {
    PutWords(WorkWords(f.work)) + (PutWords(f.tokens) + (f.hidden + f.blob))
  }

  /** A span of tokens the coordinator dispatches along a route. */
  datatype Span = Span(
    modelId: U32, session: U64, request: U64, prefixHash: U64, pos0: U32, tokens: seq<U32>,
    reset: bool, ackOnly: bool, bits: U32, hcValues: nat)

  /** The sizes that a span and its route must keep within 32 bits to be sent at all. */
  predicate Fits(c: Span, es: seq<Entry>) {
    && 0 < |c.tokens| && es != [] && |es| < TWO32 && Printable(es)
    && 4 * (|c.tokens| * c.hcValues) < TWO32
    && WireBytes(c.bits, |c.tokens| * c.hcValues).Some?
    && WORK_BYTES + 4 * |c.tokens| + WireBytes(c.bits, |c.tokens| * c.hcValues).value + |PrintRoute(es)| < TWO32
  }

  /** The header the coordinator writes for the first hop. */
  function FirstWork(c: Span, es: seq<Entry>): Work
    requires Fits(c, es)
  {
    Work(c.modelId, c.session, c.request, c.prefixHash, HashSpan(c.prefixHash, c.tokens), c.pos0, |c.tokens|,
         es[0].layerStart, es[0].layerEnd,
         FlagWord(Flags(true, es[0].flags == F_OUTPUT_LOGITS, c.reset, c.ackOnly)),
         4 * |c.tokens|, WireBytes(c.bits, |c.tokens| * c.hcValues).value, c.bits, |es|, 0, |PrintRoute(es)|)
  }

  /** The header a hop writes for the next one, given the size of the hidden state it computed. */
  function ForwardWork(w: Work, next: Entry, floatBytes: nat): Option<Work> {
    var bits := BitsOrDefault(w.inputBits);
    var bytes := WireBytesOfFloats(bits, floatBytes);
    if bytes.None? || w.routeIndex + 1 >= TWO32 then None
    else
      Some(w.(layerStart := next.layerStart, layerEnd := next.layerEnd, routeIndex := w.routeIndex + 1,
              flags := FlagWord(FlagsOf(w.flags).(inputHc := true, outputLogits := next.flags % 2 == 1)),
              inputBits := bits, inputBytes := bytes.value))
  }

  // ---------------------------------------------------------------- receiving

  /** What a worker knows about itself. */
  datatype Node = Node(modelId: U32, layerStart: U32, layerEnd: U32, hasOutput: bool, ctxSize: U32, nLayers: U32,
                       vocab: nat, hcValues: nat)

  datatype ResultKind = AckResult | HiddenResult | LogitsResult

  /** The frame is refused, or it is evaluated: what is produced, and which hop gets it next. */
  datatype Verdict = Rejected | Runs(kind: ResultKind, next: Option<Entry>)

  predicate HeaderOk(n: Node, w: Work, remaining: nat) {
    var f := FlagsOf(w.flags);
    && w.tokenBytes == 4 * w.nTokens
    && w.tokenBytes + w.inputBytes + w.routeBytes == remaining
    && w.routeIndex < w.routeCount
    && w.modelId == n.modelId
    && w.layerStart == n.layerStart && w.layerEnd == n.layerEnd
    && w.flags < 16
    && w.nTokens != 0
    && w.pos0 <= n.ctxSize && w.nTokens <= n.ctxSize - w.pos0
    && (f.inputHc <==> w.layerStart != 0)
    && (f.outputLogits ==> n.hasOutput && w.layerEnd + 1 == n.nLayers)
  }

  predicate TokensOk(n: Node, w: Work, tokens: seq<U32>) {
    (forall i :: 0 <= i < |tokens| ==> InVocabulary(tokens[i], n.vocab))
      && HashSpan(w.prefixHash, tokens) == w.resultHash
  }

  predicate InputOk(n: Node, w: Work) {
    && 4 * (w.nTokens * n.hcValues) < TWO32
    && (if FlagsOf(w.flags).inputHc then WireBytes(w.inputBits, w.nTokens * n.hcValues) == Some(w.inputBytes)
        else w.inputBytes == 0)
  }

  /** What the route payload says about this hop: its own entry must agree with the header. */
  function RouteVerdict(n: Node, w: Work, blob: seq<Byte>): Verdict
    requires w.routeIndex < w.routeCount
  {
    var f := FlagsOf(w.flags);
    var hasNext := w.routeIndex + 1 < w.routeCount;
    if !ValidFrom(blob, w.routeCount, n.nLayers, None) then Rejected
    else
      var here := Lookup(blob, w.routeIndex);
      if here.None? || here.value.layerStart != w.layerStart || here.value.layerEnd != w.layerEnd
         || (here.value.flags % 2 == 1) != f.outputLogits then Rejected
      else if hasNext then
        var next := Lookup(blob, w.routeIndex + 1);
        if next.None? || f.outputLogits then Rejected else Runs(HiddenResult, next)
      else
        var back := ReturnAfter(blob, w.routeCount);
        if back.None? || back.value.kind != RETURN_UPSTREAM then Rejected
        else Runs(if f.ackOnly then AckResult else if f.outputLogits then LogitsResult else HiddenResult, None)
  }

  function BodyVerdict(n: Node, w: Work, body: seq<Byte>): Verdict {
    if !HeaderOk(n, w, |body|) then Rejected
    else
      var tokens := GetWords(body, w.nTokens);
      if !TokensOk(n, w, tokens) || !InputOk(n, w) then Rejected
      else RouteVerdict(n, w, body[w.tokenBytes + w.inputBytes..])
  }

  function VerdictOf(n: Node, b: seq<Byte>): Verdict {
    if |b| < WORK_BYTES then Rejected else BodyVerdict(n, WorkOf(GetWords(b, 20)), b[WORK_BYTES..])
  }

  /** Reads the tokens one by one and checks each against the vocabulary. */
  method ReadTokens(n: Node, w: Work, body: seq<Byte>) returns (ok: bool)
    requires |body| >= 4 * w.nTokens
    ensures ok <==> TokensOk(n, w, GetWords(body, w.nTokens))
  {
    var tokens: seq<U32>, i, rest := [], 0, body;
    while i < w.nTokens
      invariant 0 <= i <= w.nTokens && |tokens| == i && |rest| >= 4 * (w.nTokens - i)
      invariant tokens + GetWords(rest, w.nTokens - i) == GetWords(body, w.nTokens)
      invariant forall k :: 0 <= k < i ==> InVocabulary(tokens[k], n.vocab)
    {
      var token := GetBE32(rest);
      if !InVocabulary(token, n.vocab) {
        assert GetWords(body, w.nTokens)[i] == token;
        return false;
      }
      tokens, rest := tokens + [token], rest[4..];
      i := i + 1;
    }
    assert tokens == GetWords(body, w.nTokens);
    var rolled := HashSpanLoop(w.prefixHash, tokens);
    ok := rolled == w.resultHash;
  }

  method CheckRoute(n: Node, w: Work, blob: seq<Byte>) returns (v: Verdict)
    requires w.routeIndex < w.routeCount
    ensures v == RouteVerdict(n, w, blob)
  {
    hide ValidFrom, Lookup, ReturnAfter;
    var f := FlagsOf(w.flags);
    var valid := Validate(blob, w.routeCount, n.nLayers);
    if !valid {
      return Rejected;
    }
    var here := GetEntry(blob, w.routeCount, w.routeIndex);
    if here.None? || here.value.layerStart != w.layerStart || here.value.layerEnd != w.layerEnd {
      return Rejected;
    }
    if (here.value.flags % 2 == 1) != f.outputLogits {
      return Rejected;
    }
    if w.routeIndex + 1 < w.routeCount {
      var next := GetEntry(blob, w.routeCount, w.routeIndex + 1);
      if next.None? || f.outputLogits {
        return Rejected;
      }
      return Runs(HiddenResult, next);
    }
    var back := GetReturnTarget(blob, w.routeCount);
    if back.None? || back.value.kind != RETURN_UPSTREAM {
      return Rejected;
    }
    v := Runs(if f.ackOnly then AckResult else if f.outputLogits then LogitsResult else HiddenResult, None);
  }

  method CheckWork(n: Node, b: seq<Byte>) returns (v: Verdict)
    ensures v == VerdictOf(n, b)
  {
    hide RouteVerdict, TokensOk, InputOk, GetWords, WorkOf;
    if |b| < WORK_BYTES {
      return Rejected;
    }
    var w := WorkOf(GetWords(b, 20));
    var body := b[WORK_BYTES..];
    if !HeaderOk(n, w, |body|) {
      return Rejected;
    }
    var tokensOk := ReadTokens(n, w, body);
    if !tokensOk || !InputOk(n, w) {
      return Rejected;
    }
    v := CheckRoute(n, w, body[w.tokenBytes + w.inputBytes..]);
  }

  // ---------------------------------------------------------------- what a worker accepts

  /** A worker reads back the header, the tokens and the route payload that were sent. */
  lemma FrameIsRead(n: Node, f: Frame)
    requires Sendable(f)
    ensures VerdictOf(n, FrameBytes(f)) ==
      if !HeaderOk(n, f.work, |f.tokens| * 4 + |f.hidden| + |f.blob|) || !TokensOk(n, f.work, f.tokens)
        || !InputOk(n, f.work) then Rejected
      else RouteVerdict(n, f.work, f.blob)
  {
    hide HeaderOk, TokensOk, InputOk, RouteVerdict, WorkWords, WorkOf;
    var body := PutWords(f.tokens) + (f.hidden + f.blob);
    WordsRoundTrip(WorkWords(f.work), body);
    WorkRoundTrip(f.work);
    WordsRoundTrip(f.tokens, f.hidden + f.blob);
    assert FrameBytes(f)[WORK_BYTES..] == body;
    assert body[f.work.tokenBytes + f.work.inputBytes..] == f.blob;
  }

  lemma WholeValues(bits: U32, values: nat)
    requires WireBytes(bits, values).Some?
    ensures WireBytes(bits, values).value % (BitsOrDefault(bits) / 8) == 0
  {
    var k := BitsOrDefault(bits) / 8;
    if k == 4 {
      assert WireBytes(bits, values).value == 4 * values;
    } else if k == 2 {
      assert WireBytes(bits, values).value == 2 * values;
    } else {
      assert k == 1;
    }
  }

  /** Only the last hop can own the output head. */
  lemma InnerHopsGiveNoLogits(es: seq<Entry>, nLayers: U32, i: nat)
    requires RouteOk(es, nLayers) && i + 1 < |es|
    ensures es[i].flags != F_OUTPUT_LOGITS
  {
    assert EntryOk(es[i], nLayers) && EntryOk(es[i + 1], nLayers);
    assert es[i + 1].layerStart == es[i + 1 - 1].layerEnd + 1;
  }

  /** A frame that can be sent and is meant for a node: it travels along a valid route, the node is the hop it
      points at, its tokens continue the announced hash inside the node's context and vocabulary, and
      its activations are exactly what that many tokens need. */
  predicate Addressed(n: Node, f: Frame, es: seq<Entry>) {
    var w, flags := f.work, FlagsOf(f.work.flags);
    && Sendable(f) && w.flags < 16 && w.modelId == n.modelId
    && |es| == w.routeCount && Printable(es) && RouteOk(es, n.nLayers) && f.blob == PrintRoute(es)
    && w.routeIndex < |es|
    && es[w.routeIndex].layerStart == w.layerStart == n.layerStart
    && es[w.routeIndex].layerEnd == w.layerEnd == n.layerEnd
    && (flags.outputLogits <==> es[w.routeIndex].flags == F_OUTPUT_LOGITS) && (flags.outputLogits ==> n.hasOutput)
    && w.pos0 + |f.tokens| <= n.ctxSize
    && (forall i :: 0 <= i < |f.tokens| ==> f.tokens[i] < 0x8000_0000 && f.tokens[i] < n.vocab)
    && HashSpan(w.prefixHash, f.tokens) == w.resultHash
    && 4 * (|f.tokens| * n.hcValues) < TWO32
    && (flags.inputHc <==> w.layerStart > 0)
    && (if !flags.inputHc then f.hidden == []
        else
          || (w.inputBits == 8 && |f.hidden| == |f.tokens| * n.hcValues)
          || (w.inputBits == 16 && |f.hidden| == 2 * (|f.tokens| * n.hcValues))
          || ((w.inputBits == 32 || w.inputBits == 0) && |f.hidden| == 4 * (|f.tokens| * n.hcValues)))
  }

  /** What such a frame makes the node produce: an ACK or logits only at the end of the route. */
  function KindOf(f: Frame, es: seq<Entry>): ResultKind {
    var flags := FlagsOf(f.work.flags);
    if f.work.routeIndex + 1 < |es| then HiddenResult
    else if flags.ackOnly then AckResult
    else if flags.outputLogits then LogitsResult
    else HiddenResult
  }

  function NextOf(f: Frame, es: seq<Entry>): Option<Entry> {
    if f.work.routeIndex + 1 < |es| then Some(es[f.work.routeIndex + 1]) else None
  }

  lemma AddressedRuns(n: Node, f: Frame, es: seq<Entry>)
    requires Addressed(n, f, es)
    ensures VerdictOf(n, FrameBytes(f)) == Runs(KindOf(f, es), NextOf(f, es))
  {
    hide FrameBytes, VerdictOf, BodyVerdict, HashSpan, PrintRoute, RouteVerdict, Contiguous;
    FrameIsRead(n, f);
    assert EntryOk(es[f.work.routeIndex], n.nLayers);
    RouteOfAddressed(n, f, es);
  }

  lemma RouteOfAddressed(n: Node, f: Frame, es: seq<Entry>)
    requires Addressed(n, f, es)
    ensures RouteVerdict(n, f.work, f.blob) == Runs(KindOf(f, es), NextOf(f, es))
  {
    hide HashSpan, ValidFrom, Lookup, ReturnAfter, PrintEntries, PrintReturn, FlagsOf, Sendable;
    var i := f.work.routeIndex;
    assert forall k :: 0 <= k < |es| ==> EntryOk(es[k], n.nLayers);
    BuiltBlobValidates(es, n.nLayers);
    LookupFinds(es, PrintReturn(), i);
    if i + 1 < |es| {
      LookupFinds(es, PrintReturn(), i + 1);
      InnerHopsGiveNoLogits(es, n.nLayers, i);
    } else {
      ReturnIsFound(es);
    }
  }

  /** The parts of a frame, cut out of its bytes by what its header says. */
  lemma FrameOfBytes(b: seq<Byte>) returns (f: Frame)
    requires WORK_BYTES <= |b|
    requires var w := WorkOf(GetWords(b, 20));
      w.tokenBytes == 4 * w.nTokens && WORK_BYTES + w.tokenBytes + w.inputBytes + w.routeBytes == |b|
    ensures FrameBytes(f) == b && f.work == WorkOf(GetWords(b, 20))
    ensures |f.tokens| == f.work.nTokens && |f.hidden| == f.work.inputBytes && |f.blob| == f.work.routeBytes
    ensures f.tokens == GetWords(b[WORK_BYTES..], f.work.nTokens)
    ensures f.blob == b[WORK_BYTES..][f.work.tokenBytes + f.work.inputBytes..]
  {
    hide WorkOf, WorkWords, PutWords, GetWords;
    var w, body := WorkOf(GetWords(b, 20)), b[WORK_BYTES..];
    var rest := body[w.tokenBytes..];
    f := Frame(w, GetWords(body, w.nTokens), rest[..w.inputBytes], rest[w.inputBytes..]);
    WordBytesRoundTrip(b, 20);
    WordsOfWork(GetWords(b, 20));
    WordBytesRoundTrip(body, w.nTokens);
    assert f.hidden + f.blob == rest;
    assert FrameBytes(f) == b[..WORK_BYTES] + (body[..w.tokenBytes] + rest);
    assert rest[w.inputBytes..] == body[w.tokenBytes + w.inputBytes..];
  }

  lemma WordsOfWork(ws: seq<U32>)
    requires |ws| == 20
    ensures WorkWords(WorkOf(ws)) == ws
  {
    HalvesRoundTrip(0, ws[1], ws[2]);
    HalvesRoundTrip(0, ws[3], ws[4]);
    HalvesRoundTrip(0, ws[5], ws[6]);
    HalvesRoundTrip(0, ws[7], ws[8]);
  }

  lemma AcceptedPasses(n: Node, b: seq<Byte>)
    requires VerdictOf(n, b).Runs?
    ensures |b| >= WORK_BYTES
    ensures var w, body := WorkOf(GetWords(b, 20)), b[WORK_BYTES..];
      && HeaderOk(n, w, |body|) && InputOk(n, w)
      && TokensOk(n, w, GetWords(body, w.nTokens)) && RouteVerdict(n, w, body[w.tokenBytes + w.inputBytes..]).Runs?
  {
    hide RouteVerdict, TokensOk, InputOk, GetWords, WorkOf;
  }

  lemma RunsMeans(n: Node, w: Work, blob: seq<Byte>)
    requires w.routeIndex < w.routeCount && RouteVerdict(n, w, blob).Runs?
    ensures ValidFrom(blob, w.routeCount, n.nLayers, None) && Lookup(blob, w.routeIndex).Some?
    ensures var here := Lookup(blob, w.routeIndex).value;
      && here.layerStart == w.layerStart && here.layerEnd == w.layerEnd
      && (here.flags % 2 == 1 <==> FlagsOf(w.flags).outputLogits)
  {
    hide ValidFrom, Lookup, ReturnAfter, FlagsOf;
  }

  /** A route payload with which a hop goes on is a printed route in which the header names the hop's entry. */
  lemma RunsOnPrintedRoute(n: Node, w: Work, blob: seq<Byte>) returns (es: seq<Entry>)
    requires w.routeIndex < w.routeCount && RouteVerdict(n, w, blob).Runs?
    ensures |es| == w.routeCount && Printable(es) && RouteOk(es, n.nLayers) && blob == PrintRoute(es)
    ensures es[w.routeIndex].layerStart == w.layerStart && es[w.routeIndex].layerEnd == w.layerEnd
    ensures FlagsOf(w.flags).outputLogits <==> es[w.routeIndex].flags == F_OUTPUT_LOGITS
  {
    hide RouteVerdict, ValidFrom, Lookup, ReturnAfter, PrintEntries, PrintReturn, FlagsOf, Contiguous, ReadEntries,
         Printable;
    RunsMeans(n, w, blob);
    ReadersAgree(blob, w.routeCount, n.nLayers);
    ValidWasPrinted(blob, w.routeCount, n.nLayers, None);
    es := ReadEntries(blob, w.routeCount).value.0;
    assert EntryOk(es[w.routeIndex], n.nLayers);
  }

  lemma AcceptedWasAddressed(n: Node, b: seq<Byte>) returns (f: Frame, es: seq<Entry>)
    requires |b| < TWO32 && VerdictOf(n, b).Runs?
    ensures Addressed(n, f, es) && FrameBytes(f) == b
  {
    hide FrameBytes, VerdictOf, HashSpan, PrintRoute, RouteVerdict, GetWords, WorkOf, FlagsOf, RouteOk;
    AcceptedPasses(n, b);
    f := FrameOfBytes(b);
    es := RunsOnPrintedRoute(n, f.work, f.blob);
    if FlagsOf(f.work.flags).inputHc { WholeValues(f.work.inputBits, f.work.nTokens * n.hcValues); }
  }

  /** A worker accepts a byte string if and only if it is the wire form of a frame that is addressed to it. */
  lemma AcceptedIffAddressed(n: Node, b: seq<Byte>)
    requires |b| < TWO32
    ensures VerdictOf(n, b).Runs? <==> exists f, es :: Addressed(n, f, es) && FrameBytes(f) == b
  {
    hide VerdictOf, FrameBytes, Addressed;
    if VerdictOf(n, b).Runs? {
      var f, es := AcceptedWasAddressed(n, b);
    }
    forall f, es | Addressed(n, f, es) && FrameBytes(f) == b ensures VerdictOf(n, b).Runs? {
      AddressedRuns(n, f, es);
    }
  }

  // ---------------------------------------------------------------- a frame on its way along the route

  /** A route over layers the coordinator does not hold, and hops that are what the route says they are. */
  predicate Deployed(c: Span, es: seq<Entry>, nodes: seq<Node>, nLayers: U32) {
    && Fits(c, es)
    && RouteOk(es, nLayers) && es[0].layerStart > 0
    && |nodes| == |es|
    && (forall i :: 0 <= i < |es| ==> Serves(nodes[i], c, es[i], nLayers))
  }

  predicate Serves(n: Node, c: Span, e: Entry, nLayers: U32) {
    && n.modelId == c.modelId && n.nLayers == nLayers && n.hcValues == c.hcValues
    && n.layerStart == e.layerStart && n.layerEnd == e.layerEnd && (n.hasOutput <==> e.flags == F_OUTPUT_LOGITS)
    && c.pos0 + |c.tokens| <= n.ctxSize
    && forall k :: 0 <= k < |c.tokens| ==> InVocabulary(c.tokens[k], n.vocab)
  }

  /** The header that reaches hop i: rewritten by every hop before it from the entry it looks up in the
      route payload it received. */
  function WorkReaching(c: Span, es: seq<Entry>, i: nat): Option<Work>
    requires Fits(c, es)
  {
    if i == 0 then Some(FirstWork(c, es))
    else
      var before := WorkReaching(c, es, i - 1);
      var next := Lookup(PrintRoute(es), i);
      if before.None? || next.None? then None
      else ForwardWork(before.value, next.value, 4 * (|c.tokens| * c.hcValues))
  }

  /** What that header should be. */
  function WorkAt(c: Span, es: seq<Entry>, i: nat): Work
    requires Fits(c, es) && i < |es|
  {
    FirstWork(c, es).(
      layerStart := es[i].layerStart, layerEnd := es[i].layerEnd, routeIndex := i,
      flags := FlagWord(Flags(true, es[i].flags == F_OUTPUT_LOGITS, c.reset, c.ackOnly)),
      inputBits := if i == 0 then c.bits else BitsOrDefault(c.bits))
  }

  lemma ForwardStep(c: Span, es: seq<Entry>, i: nat)
    requires Fits(c, es) && i + 1 < |es| && es[i + 1].flags <= F_OUTPUT_LOGITS
    ensures ForwardWork(WorkAt(c, es, i), es[i + 1], 4 * (|c.tokens| * c.hcValues)) == Some(WorkAt(c, es, i + 1))
  {
    hide HashSpan, PrintRoute;
    FlagsRoundTrip(Flags(true, es[i].flags == F_OUTPUT_LOGITS, c.reset, c.ackOnly));
    FourTimes(|c.tokens| * c.hcValues);
  }

  lemma FourTimes(x: nat)
    ensures (4 * x) % 4 == 0 && (4 * x) / 4 == x
  {
  }

  lemma FirstWorkIsAt(c: Span, es: seq<Entry>)
    requires Fits(c, es) && es != []
    ensures WorkAt(c, es, 0) == FirstWork(c, es)
  {
  }

  /** The frame that reaches hop i names exactly that hop's layers and position in the route. */
  lemma {:induction false} WorkReachesHop(c: Span, es: seq<Entry>, nLayers: U32, i: nat)
    requires Fits(c, es) && RouteOk(es, nLayers) && i < |es|
    ensures WorkReaching(c, es, i) == Some(WorkAt(c, es, i))
  {
    hide ForwardWork, Lookup, WorkAt, Fits, FirstWork;
    if i == 0 {
      FirstWorkIsAt(c, es);
    } else {
      WorkReachesHop(c, es, nLayers, i - 1);
      LookupFinds(es, PrintReturn(), i);
      ForwardStep(c, es, i - 1);
    }
  }

  /** Forwarding preserves frame validity.  Whatever the route, whatever the activation bytes, the frame that
      reaches hop i can be sent, passes every check of the worker there, and makes it produce what it
      should: an ACK only from the last hop, logits only from a last hop that owns the output head. */
  lemma EveryHopAccepts(c: Span, es: seq<Entry>, nodes: seq<Node>, nLayers: U32, i: nat, hidden: seq<Byte>)
    requires Deployed(c, es, nodes, nLayers) && i < |es|
    requires |hidden| == WireBytes(c.bits, |c.tokens| * c.hcValues).value
    ensures WorkReaching(c, es, i).Some?
    ensures var f := Frame(WorkReaching(c, es, i).value, c.tokens, hidden, PrintRoute(es));
      && Sendable(f)
      && f.work.layerStart == es[i].layerStart && f.work.layerEnd == es[i].layerEnd
      && (FlagsOf(f.work.flags).outputLogits ==> i == |es| - 1 && nodes[i].hasOutput)
      && VerdictOf(nodes[i], FrameBytes(f)) ==
           Runs(if i + 1 < |es| then HiddenResult else if c.ackOnly then AckResult
                else if es[i].flags == F_OUTPUT_LOGITS then LogitsResult else HiddenResult,
                if i + 1 < |es| then Some(es[i + 1]) else None)
  {
    hide FrameBytes, VerdictOf, HashSpan, PrintRoute, WorkReaching, Fits, RouteOk;
    WorkReachesHop(c, es, nLayers, i);
    SpanIsAddressed(c, es, nodes, nLayers, i, hidden);
    AddressedRuns(nodes[i], Frame(WorkAt(c, es, i), c.tokens, hidden, PrintRoute(es)), es);
    FlagsRoundTrip(Flags(true, es[i].flags == F_OUTPUT_LOGITS, c.reset, c.ackOnly));
    if i + 1 < |es| { InnerHopsGiveNoLogits(es, nLayers, i); }
  }

  lemma SpanIsAddressed(c: Span, es: seq<Entry>, nodes: seq<Node>, nLayers: U32, i: nat, hidden: seq<Byte>)
    requires Deployed(c, es, nodes, nLayers) && i < |es|
    requires |hidden| == WireBytes(c.bits, |c.tokens| * c.hcValues).value
    ensures Addressed(nodes[i], Frame(WorkAt(c, es, i), c.tokens, hidden, PrintRoute(es)), es)
  {
    hide HashSpan, PrintRoute, Contiguous;
    FlagsRoundTrip(Flags(true, es[i].flags == F_OUTPUT_LOGITS, c.reset, c.ackOnly));
    WholeValues(c.bits, |c.tokens| * c.hcValues);
    StartsGrow(es, nLayers, i);
    assert EntryOk(es[i], nLayers) && Serves(nodes[i], c, es[i], nLayers);
  }

  lemma {:induction false} StartsGrow(es: seq<Entry>, nLayers: U32, i: nat)
    requires RouteOk(es, nLayers) && i < |es|
    ensures es[0].layerStart <= es[i].layerStart
  {
    if i > 0 {
      StartsGrow(es, nLayers, i - 1);
      assert EntryOk(es[i - 1], nLayers);
    }
  }

  /** A node that is what the route says about hop `next` and can hold the tokens of a frame. */
  predicate CanServe(m: Node, n: Node, f: Frame, next: Entry) {
    && m.modelId == n.modelId && m.nLayers == n.nLayers && m.hcValues == n.hcValues
    && m.layerStart == next.layerStart && m.layerEnd == next.layerEnd && (next.flags == F_OUTPUT_LOGITS ==> m.hasOutput)
    && f.work.pos0 + |f.tokens| <= m.ctxSize
    && forall k :: 0 <= k < |f.tokens| ==> InVocabulary(f.tokens[k], m.vocab)
  }

  /** The frame a worker sends on, with the activations it computed: a new header, the same tokens and route. */
  function Onward(n: Node, f: Frame, next: Entry, hidden: seq<Byte>): Option<Frame> {
    var work := ForwardWork(f.work, next, 4 * (|f.tokens| * n.hcValues));
    if work.None? then None else Some(Frame(work.value, f.tokens, hidden, f.blob))
  }

  /** A worker never passes on a frame that the next one refuses: whatever frame it accepted, from whomever,
      what it sends to the next hop of the route is addressed to that hop, if it can be sent at all. */
  lemma ForwardedIsAddressed(n: Node, m: Node, f: Frame, es: seq<Entry>, hidden: seq<Byte>)
    requires Addressed(n, f, es) && NextOf(f, es).Some? && CanServe(m, n, f, NextOf(f, es).value)
    requires var g := Onward(n, f, NextOf(f, es).value, hidden); g.Some? && Sendable(g.value)
    ensures var g := Onward(n, f, NextOf(f, es).value, hidden).value;
      Addressed(m, g, es) && VerdictOf(m, FrameBytes(g)) == Runs(KindOf(g, es), NextOf(g, es))
  {
    hide HashSpan, PrintRoute, RouteOk, VerdictOf, FrameBytes, NextOf, KindOf, FlagsOf, FlagWord, Sendable, ForwardWork,
         EntryOk;
    NextIsBehind(n, f, es);
    var next := NextOf(f, es).value;
    ForwardedFields(f.work, next, |f.tokens| * n.hcValues);
    var g := Onward(n, f, next, hidden).value;
    HiddenOf(g);
    AddressedRuns(m, g, es);
  }

  /** What a hop changes in the header it passes on. */
  lemma ForwardedFields(w: Work, next: Entry, values: nat)
    requires next.flags <= F_OUTPUT_LOGITS && ForwardWork(w, next, 4 * values).Some?
    ensures var g := ForwardWork(w, next, 4 * values).value;
      && g == w.(layerStart := next.layerStart, layerEnd := next.layerEnd, routeIndex := w.routeIndex + 1,
                 flags := g.flags, inputBits := g.inputBits, inputBytes := g.inputBytes)
      && g.flags < 16 && FlagsOf(g.flags).inputHc && (FlagsOf(g.flags).outputLogits <==> next.flags == F_OUTPUT_LOGITS)
      && BitsValid(g.inputBits) && g.inputBytes == values * (BitsOrDefault(g.inputBits) / 8)
  {
    hide FlagsOf, FlagWord;
    FourTimes(values);
    FlagsRoundTrip(FlagsOf(w.flags).(inputHc := true, outputLogits := next.flags % 2 == 1));
  }

  lemma HiddenOf(g: Frame)
    requires Sendable(g)
    ensures |g.hidden| == g.work.inputBytes && |g.tokens| > 0
  {
  }

  lemma NextIsBehind(n: Node, f: Frame, es: seq<Entry>)
    requires Addressed(n, f, es) && NextOf(f, es).Some?
    ensures f.work.routeIndex + 1 < |es| && NextOf(f, es).value == es[f.work.routeIndex + 1]
    ensures es[f.work.routeIndex + 1].layerStart > 0 && es[f.work.routeIndex + 1].flags <= F_OUTPUT_LOGITS
  {
    hide HashSpan, PrintRoute, Sendable, FlagsOf;
    var i := f.work.routeIndex;
    assert EntryOk(es[i], n.nLayers) && EntryOk(es[i + 1], n.nLayers);
    assert es[i + 1].layerStart == es[i + 1 - 1].layerEnd + 1;
  }

  // ---------------------------------------------------------------- the routes the planner finds

  function EntryFor(w: RouteSearch.Worker): Entry
    requires w.port < TWO32 && w.layerStart < TWO32 && w.layerEnd < TWO32
  {
    Entry(w.host, w.port, w.layerStart, w.layerEnd, if w.hasOutput then F_OUTPUT_LOGITS else 0)
  }

  function EntriesFor(c: RouteSearch.Coordinator, route: seq<RouteSearch.Worker>): (es: seq<Entry>)
    requires c.nLayers < TWO32 && forall i :: 0 <= i < |route| ==> RouteSearch.Accepted(c, route[i])
    ensures |es| == |route|
  {
    seq(|route|, i requires 0 <= i < |route| && RouteSearch.Accepted(c, route[i]) => EntryFor(route[i]))
  }

  /** What the planner finds among workers that passed the handshake is a route the validator accepts,
      starting behind the coordinator's own slice. */
  lemma {:induction false} PlannedRouteIsValid(c: RouteSearch.Coordinator, ws: seq<RouteSearch.Worker>,
                                               route: seq<RouteSearch.Worker>, next: nat)
    requires 1 <= c.nLayers < TWO32 && RouteSearch.AllAccepted(c, ws)
    requires forall w :: w in ws ==> HostOk(w.host)
    requires RouteSearch.IsRoute(c, ws, route, next, c.nLayers - 1)
    ensures forall i :: 0 <= i < |route| ==> RouteSearch.Accepted(c, route[i])
    ensures RouteOk(EntriesFor(c, route), c.nLayers) && EntriesFor(c, route)[0].layerStart == next
    decreases |route|
  {
    var w := route[0];
    assert RouteSearch.Accepted(c, w);
    if w.layerEnd < c.nLayers - 1 {
      PlannedRouteIsValid(c, ws, route[1..], w.layerEnd + 1);
      var rest := EntriesFor(c, route[1..]);
      assert forall i :: 1 <= i < |route| ==> route[i] == route[1..][i - 1];
      assert EntriesFor(c, route) == [EntryFor(w)] + rest;
    }
  }
}
