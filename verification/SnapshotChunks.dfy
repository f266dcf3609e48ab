/** Snapshot payloads cross a connection in chunk frames, in the save and in the restore direction. */
module SnapshotChunks {
  import opened Wire

  const MAGIC: U32 := 0x44533444
  const MSG_SNAPSHOT_CHUNK: U32 := 7
  const CHUNK_BYTES: nat := 0x80_0000
  const FIXED_BYTES: nat := 12          // request halves and chunk size behind the frame header
  const PREFIX_BYTES: nat := 24         // frame header and fixed part together

  /** One chunk frame: magic, type, frame size, request, chunk size, data. */
  function ChunkFrame(request: U64, part: seq<Byte>): seq<Byte>
    requires |part| <= CHUNK_BYTES
  {
    PutWords([MAGIC, MSG_SNAPSHOT_CHUNK, FIXED_BYTES + |part|, High(request), Low(request), |part|]) + part
  }

  function Min(a: nat, b: nat): nat {
    if a < b then a else b
  }

  /** The frames the sender emits: full chunks and a shorter last one. */
  function Frames(request: U64, payload: seq<Byte>): seq<Byte>
    decreases |payload|
  {
    if payload == [] then []
    else
      var n := Min(|payload|, CHUNK_BYTES);
      ChunkFrame(request, payload[..n]) + Frames(request, payload[n..])
  }

  method SendChunks(request: U64, payload: seq<Byte>) returns (stream: seq<Byte>)
    ensures stream == Frames(request, payload)
  {
    hide ChunkFrame;
    stream := [];
    var rest := payload;
    while |rest| != 0
      invariant stream + Frames(request, rest) == Frames(request, payload)
      decreases |rest|
    {
      var n := if |rest| > CHUNK_BYTES then CHUNK_BYTES else |rest|;
      assert stream + (ChunkFrame(request, rest[..n]) + Frames(request, rest[n..]))
        == stream + ChunkFrame(request, rest[..n]) + Frames(request, rest[n..]);
      stream := stream + ChunkFrame(request, rest[..n]);
      rest := rest[n..];
    }
  }

  // ---------------------------------------------------------------- receiving

  /** One frame off the stream, when `missing` bytes are still to come: its data and the rest. */
  function TakeChunk(stream: seq<Byte>, request: U64, missing: nat): (r: Option<(seq<Byte>, seq<Byte>)>)
    ensures r.Some? ==> |r.value.1| < |stream| && |r.value.0| <= Min(CHUNK_BYTES, missing)
  {
    if |stream| < PREFIX_BYTES then None
    else
      var f, body := GetWords(stream, 6), stream[PREFIX_BYTES..];
      if f[0] != MAGIC || f[1] != MSG_SNAPSHOT_CHUNK || f[2] < FIXED_BYTES then None
      else
        var n := f[2] - FIXED_BYTES;
        if FromHalves(f[3], f[4]) != request || f[5] != n || n > CHUNK_BYTES || n > missing || n > |body| then None
        else Some((body[..n], body[n..]))
  }

  /** Collects chunks until nothing is missing. */
  function Collected(stream: seq<Byte>, request: U64, missing: nat): Option<(seq<Byte>, seq<Byte>)>
    decreases |stream|
  {
    if missing == 0 then Some(([], stream))
    else
      var chunk := TakeChunk(stream, request, missing);
      if chunk.None? then None
      else
        var others := Collected(chunk.value.1, request, missing - |chunk.value.0|);
        if others.None? then None else Some((chunk.value.0 + others.value.0, others.value.1))
  }

  method ReceiveChunks(stream: seq<Byte>, request: U64, payloadBytes: nat) returns (r: Option<(seq<Byte>, seq<Byte>)>)
    ensures r == Collected(stream, request, payloadBytes)
  {
    hide TakeChunk;
    var file: seq<Byte>, rest := [], stream;
    PrependNothing(Collected(stream, request, payloadBytes));
    while |file| < payloadBytes
      invariant |file| <= payloadBytes
      invariant Collected(stream, request, payloadBytes)
        == Prepend(file, Collected(rest, request, payloadBytes - |file|))
      decreases |rest|
    {
      var chunk := TakeChunk(rest, request, payloadBytes - |file|);
      if chunk.None? {
        return None;
      }
      PrependTwice(file, chunk.value.0, Collected(chunk.value.1, request, payloadBytes - |file| - |chunk.value.0|));
      file, rest := file + chunk.value.0, chunk.value.1;
    }
    assert file + [] == file;
    r := Some((file, rest));
  }

  function Prepend(a: seq<Byte>, r: Option<(seq<Byte>, seq<Byte>)>): Option<(seq<Byte>, seq<Byte>)> {
    if r.None? then None else Some((a + r.value.0, r.value.1))
  }

  lemma PrependNothing(r: Option<(seq<Byte>, seq<Byte>)>)
    ensures Prepend([], r) == r
  {
    if r.Some? { assert [] + r.value.0 == r.value.0; }
  }

  lemma PrependTwice(a: seq<Byte>, b: seq<Byte>, r: Option<(seq<Byte>, seq<Byte>)>)
    ensures Prepend(a, Prepend(b, r)) == Prepend(a + b, r)
  {
    if r.Some? { assert a + (b + r.value.0) == a + b + r.value.0; }
  }

  // ---------------------------------------------------------------- both directions

  lemma TakesWhatWasFramed(request: U64, part: seq<Byte>, rest: seq<Byte>, missing: nat)
    requires |part| <= CHUNK_BYTES && |part| <= missing
    ensures TakeChunk(ChunkFrame(request, part) + rest, request, missing) == Some((part, rest))
  {
    hide PutWords, GetWords, High, Low;
    var ws := [MAGIC, MSG_SNAPSHOT_CHUNK, FIXED_BYTES + |part|, High(request), Low(request), |part|];
    var stream := ChunkFrame(request, part) + rest;
    WordsRoundTrip(ws, part + rest);
    HalvesRoundTrip(request, 0, 0);
    assert stream == PutWords(ws) + (part + rest);
    assert (part + rest)[..|part|] == part && (part + rest)[|part|..] == rest;
  }

  /** For a payload of any size the receiver rebuilds exactly the bytes that were sent, and stops at the
      end of the last chunk. */
  lemma {:induction false} ChunksRoundTrip(request: U64, payload: seq<Byte>, rest: seq<Byte>)
    ensures Collected(Frames(request, payload) + rest, request, |payload|) == Some((payload, rest))
    decreases |payload|
  {
    hide ChunkFrame, TakeChunk;
    if payload == [] {
      assert [] + rest == rest;
    } else {
      var n := Min(|payload|, CHUNK_BYTES);
      var more := Frames(request, payload[n..]) + rest;
      assert Frames(request, payload) + rest == ChunkFrame(request, payload[..n]) + more;
      TakesWhatWasFramed(request, payload[..n], more, |payload|);
      ChunksRoundTrip(request, payload[n..], rest);
      assert payload == payload[..n] + payload[n..];
    }
  }

  function Framed(request: U64, parts: seq<seq<Byte>>): seq<Byte>
    requires forall i :: 0 <= i < |parts| ==> |parts[i]| <= CHUNK_BYTES
  {
    if parts == [] then [] else ChunkFrame(request, parts[0]) + Framed(request, parts[1..])
  }

  function Flat(parts: seq<seq<Byte>>): seq<Byte> {
    if parts == [] then [] else parts[0] + Flat(parts[1..])
  }

  lemma TakenWasFramed(stream: seq<Byte>, request: U64, missing: nat)
    requires TakeChunk(stream, request, missing).Some?
    ensures var (part, rest) := TakeChunk(stream, request, missing).value;
      stream == ChunkFrame(request, part) + rest
  {
    hide PutWords, GetWords, High, Low, FromHalves;
    var f, body := GetWords(stream, 6), stream[PREFIX_BYTES..];
    var part := body[..f[5]];
    HalvesRoundTrip(0, f[3], f[4]);
    WordBytesRoundTrip(stream, 6);
    assert f == [MAGIC, MSG_SNAPSHOT_CHUNK, FIXED_BYTES + |part|, High(request), Low(request), |part|];
    assert stream == stream[..PREFIX_BYTES] + (part + body[f[5]..]);
  }

  /** A way to cut a payload into chunks that a receiver can follow: none too long, and something in the last one,
      behind which it stops reading.  Chunks before that may be empty. */
  predicate WellCut(parts: seq<seq<Byte>>) {
    && (forall i :: 0 <= i < |parts| ==> |parts[i]| <= CHUNK_BYTES)
    && (parts != [] ==> parts[|parts| - 1] != [])
  }

  /** Whatever the receiver accepts is a sequence of chunk frames of this request whose data is the payload of the
      announced size. */
  lemma {:induction false} CollectedWasFramed(stream: seq<Byte>, request: U64, missing: nat)
    returns (parts: seq<seq<Byte>>)
    requires Collected(stream, request, missing).Some?
    ensures WellCut(parts) && (missing > 0 <==> parts != [])
    ensures var (payload, rest) := Collected(stream, request, missing).value;
      |payload| == missing && payload == Flat(parts) && stream == Framed(request, parts) + rest
    decreases |stream|
  {
    hide ChunkFrame, TakeChunk;
    if missing == 0 {
      parts := [];
      assert stream == [] + stream;
    } else {
      var (part, rest) := TakeChunk(stream, request, missing).value;
      TakenWasFramed(stream, request, missing);
      var others := CollectedWasFramed(rest, request, missing - |part|);
      parts := [part] + others;
      assert parts[1..] == others;
      var end := Collected(rest, request, missing - |part|).value.1;
      assert ChunkFrame(request, part) + (Framed(request, others) + end)
        == ChunkFrame(request, part) + Framed(request, others) + end;
    }
  }

  lemma WellCutTail(parts: seq<seq<Byte>>)
    requires WellCut(parts) && parts != []
    ensures WellCut(parts[1..]) && |parts[0]| <= CHUNK_BYTES
    ensures parts[1..] == [] ==> parts[0] != []
  {
    assert forall i :: 0 <= i < |parts[1..]| ==> parts[1..][i] == parts[i + 1];
  }

  lemma {:induction false} SomethingToCome(parts: seq<seq<Byte>>)
    requires WellCut(parts) && parts != []
    ensures |Flat(parts)| > 0
  {
    WellCutTail(parts);
    if parts[1..] != [] { SomethingToCome(parts[1..]); }
  }

  /** And every such sequence of frames is accepted. */
  lemma {:induction false} FramedIsCollected(request: U64, parts: seq<seq<Byte>>, rest: seq<Byte>)
    requires WellCut(parts)
    ensures Collected(Framed(request, parts) + rest, request, |Flat(parts)|) == Some((Flat(parts), rest))
  {
    hide ChunkFrame, TakeChunk, WellCut;
    if parts == [] {
      assert [] + rest == rest;
    } else {
      WellCutTail(parts);
      SomethingToCome(parts);
      var more := Framed(request, parts[1..]) + rest;
      assert Framed(request, parts) + rest == ChunkFrame(request, parts[0]) + more;
      TakesWhatWasFramed(request, parts[0], more, |Flat(parts)|);
      FramedIsCollected(request, parts[1..], rest);
    }
  }

  /** The receiver accepts exactly the streams that start with the payload in well-cut chunk frames of this request. */
  lemma CollectedIffFramed(stream: seq<Byte>, request: U64, payload: seq<Byte>, rest: seq<Byte>)
    ensures Collected(stream, request, |payload|) == Some((payload, rest))
       <==> exists parts :: WellCut(parts) && Flat(parts) == payload && stream == Framed(request, parts) + rest
  {
    hide Framed, Flat;
    if Collected(stream, request, |payload|) == Some((payload, rest)) {
      var parts := CollectedWasFramed(stream, request, |payload|);
    }
    forall parts | WellCut(parts) && Flat(parts) == payload && stream == Framed(request, parts) + rest
      ensures Collected(stream, request, |payload|) == Some((payload, rest))
    {
      FramedIsCollected(request, parts, rest);
    }
  }

  /** An empty chunk in front of the data is accepted, although the sender never makes one. */
  lemma EmptyChunkIsAccepted(request: U64, x: Byte, rest: seq<Byte>)
    ensures var stream := ChunkFrame(request, []) + (ChunkFrame(request, [x]) + rest);
      && Collected(stream, request, 1) == Some(([x], rest))
      && stream != Frames(request, [x]) + rest
  {
    hide ChunkFrame;
    var parts: seq<seq<Byte>> := [[], [x]];
    assert parts[1..] == [[x]] && parts[1..][1..] == [];
    assert [x] + [] == [x] && [] + [x] == [x];
    assert Flat(parts[1..][1..]) == [] && Flat(parts[1..]) == [x] && Flat(parts) == [x];
    var one := ChunkFrame(request, [x]);
    assert Framed(request, parts[1..][1..]) == [] && Framed(request, parts[1..]) == one + [];
    assert Framed(request, parts) == ChunkFrame(request, []) + (one + []);
    assert Framed(request, parts) + rest == ChunkFrame(request, []) + (one + rest);
    FramedIsCollected(request, parts, rest);
    ChunkLengths(request, []);
    ChunkLengths(request, [x]);
    assert [x][..1] == [x] && [x][1..] == [];
    assert Frames(request, [x]) == one + Frames(request, []);
  }

  lemma ChunkLengths(request: U64, part: seq<Byte>)
    requires |part| <= CHUNK_BYTES
    ensures |ChunkFrame(request, part)| == PREFIX_BYTES + |part|
  {
  }

  /** The sender's frames hold between 1 byte and 8 MiB each, and only the last may hold less than 8 MiB. */
  function Parts(payload: seq<Byte>): seq<seq<Byte>>
    decreases |payload|
  {
    if payload == [] then []
    else
      var n := Min(|payload|, CHUNK_BYTES);
      [payload[..n]] + Parts(payload[n..])
  }

  lemma {:induction false} FramesAreChunks(request: U64, payload: seq<Byte>)
    ensures forall i :: 0 <= i < |Parts(payload)| ==> 1 <= |Parts(payload)[i]| <= 0x80_0000
    ensures forall i :: 0 <= i < |Parts(payload)| - 1 ==> |Parts(payload)[i]| == 0x80_0000
    ensures Frames(request, payload) == Framed(request, Parts(payload)) && Flat(Parts(payload)) == payload
    decreases |payload|
  {
    hide ChunkFrame;
    if payload != [] {
      var n := Min(|payload|, CHUNK_BYTES);
      FramesAreChunks(request, payload[n..]);
      assert Parts(payload)[1..] == Parts(payload[n..]);
      assert payload == payload[..n] + payload[n..];
    }
  }
}
