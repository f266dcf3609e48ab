/** The route payload of a WORK frame: the bytes the coordinator prints, and the three readers of the workers. */
module RouteBlob {
  import opened Wire

  const MAX_HOST: nat := 1025           // NI_MAXHOST
  const ENTRY_BYTES: nat := 20
  const RETURN_BYTES: nat := 12
  const RETURN_UPSTREAM: U32 := 1
  const F_OUTPUT_LOGITS: U32 := 1

  datatype Entry = Entry(host: seq<Byte>, port: U32, layerStart: U32, layerEnd: U32, flags: U32)
  datatype Return = Return(kind: U32, port: U32, host: seq<Byte>)

  /** A host text that fits the C buffers: not empty, no NUL, room for the terminator. */
  predicate HostOk(host: seq<Byte>) {
    0 < |host| < MAX_HOST && 0 !in host
  }

  /** What the validator asks of one entry. */
  predicate EntryOk(e: Entry, nLayers: U32) {
    && HostOk(e.host)
    && 0 < e.port <= 65535
    && e.layerStart < nLayers && e.layerEnd < nLayers && e.layerStart <= e.layerEnd
    && e.flags <= F_OUTPUT_LOGITS
    && (e.flags == F_OUTPUT_LOGITS ==> e.layerEnd + 1 == nLayers)
  }

  /** A list of entries whose layer ranges follow each other. */
  predicate Contiguous(es: seq<Entry>) {
    forall i :: 0 < i < |es| ==> es[i].layerStart == es[i - 1].layerEnd + 1
  }

  predicate RouteOk(es: seq<Entry>, nLayers: U32) {
    Contiguous(es) && forall i :: 0 <= i < |es| ==> EntryOk(es[i], nLayers)
  }

  // ---------------------------------------------------------------- printing

  function Fixed(e: Entry): seq<U32>
    requires |e.host| < TWO32
  {
    [|e.host|, e.port, e.layerStart, e.layerEnd, e.flags]
  }

  function PrintEntry(e: Entry): (r: seq<Byte>)
    requires |e.host| < TWO32
    ensures |r| == ENTRY_BYTES + |e.host|
  {
    PutWords(Fixed(e)) + e.host
  }

  predicate Printable(es: seq<Entry>) {
    forall i :: 0 <= i < |es| ==> |es[i].host| < TWO32
  }

  function PrintEntries(es: seq<Entry>): seq<Byte>
    requires Printable(es)
  {
    if es == [] then [] else PrintEntry(es[0]) + PrintEntries(es[1..])
  }

  function PrintReturn(): (r: seq<Byte>)
    ensures |r| == RETURN_BYTES
  {
    PutWords([RETURN_UPSTREAM, 0, 0])
  }

  /** The payload for a route: nothing without hops, else the entries and the way back. */
  function PrintRoute(es: seq<Entry>): seq<Byte>
    requires Printable(es)
  {
    if es == [] then [] else PrintEntries(es) + PrintReturn()
  }

  /** Appends one entry; fails for a bad host or when the size leaves 32 bits. */
  method AppendEntry(blob: seq<Byte>, e: Entry) returns (r: Option<seq<Byte>>)
    requires |blob| < TWO32 && 0 !in e.host
    ensures r.Some? <==> HostOk(e.host) && |blob| + ENTRY_BYTES + |e.host| < TWO32
    ensures r.Some? ==> r.value == blob + PrintEntry(e)
  {
    if |e.host| == 0 || |e.host| >= MAX_HOST {
      return None;
    }
    var add := ENTRY_BYTES + |e.host|;
    if |blob| > TWO32 - 1 - add {
      return None;
    }
    r := Some(blob + PutWords(Fixed(e)) + e.host);
    assert blob + PutWords(Fixed(e)) + e.host == blob + PrintEntry(e);
  }

  /** Prints the whole route the way the planner does, entry by entry. */
  method BuildBlob(es: seq<Entry>) returns (r: Option<seq<Byte>>)
    requires forall i :: 0 <= i < |es| ==> 0 !in es[i].host
    ensures r.Some? ==> Printable(es) && r.value == PrintRoute(es) && |r.value| < TWO32
    ensures r.Some? ==> forall i :: 0 <= i < |es| ==> HostOk(es[i].host)
    ensures r.None?
      ==> (exists i :: 0 <= i < |es| && !HostOk(es[i].host)) || (Printable(es) && |PrintRoute(es)| >= TWO32)
  {
    var blob: seq<Byte>, i := [], 0;
    while i < |es|
      invariant 0 <= i <= |es| && |blob| < TWO32
      invariant forall k :: 0 <= k < i ==> HostOk(es[k].host)
      invariant Printable(es[..i]) && blob == PrintEntries(es[..i])
    {
      var next := AppendEntry(blob, es[i]);
      if next.None? {
        if HostOk(es[i].host) && forall k :: i < k < |es| ==> HostOk(es[k].host) {
          assert Printable(es);
          PrintsInOrder(es, i);
        }
        return None;
      }
      assert es[..i + 1] == es[..i] + [es[i]];
      PrintOneMore(es[..i], es[i]);
      blob := next.value;
      i := i + 1;
    }
    assert es[..i] == es;
    if |es| != 0 {
      if |blob| > TWO32 - 1 - RETURN_BYTES {
        return None;
      }
      blob := blob + PutWords([RETURN_UPSTREAM, 0, 0]);
    }
    r := Some(blob);
  }

  lemma {:induction false} PrintOneMore(es: seq<Entry>, e: Entry)
    requires Printable(es) && |e.host| < TWO32
    ensures PrintEntries(es + [e]) == PrintEntries(es) + PrintEntry(e)
  {
    if es == [] {
      assert ([] + [e])[1..] == [];
    } else {
      assert (es + [e])[1..] == es[1..] + [e];
      PrintOneMore(es[1..], e);
    }
  }

  lemma {:induction false} PrintsInOrder(es: seq<Entry>, i: nat)
    requires Printable(es) && i < |es|
    ensures |PrintEntries(es)| >= |PrintEntries(es[..i])| + ENTRY_BYTES + |es[i].host|
  {
    if i > 0 {
      PrintsInOrder(es[1..], i - 1);
      assert es[..i][1..] == es[1..][..i - 1];
    }
  }

  // ---------------------------------------------------------------- reading

  /** One entry off the front of the remaining bytes, with no check on its fields. */
  function ReadEntry(b: seq<Byte>): (r: Option<(Entry, seq<Byte>)>)
    ensures r.Some? ==> |r.value.0.host| < TWO32 && b == PrintEntry(r.value.0) + r.value.1
  {
    if |b| < ENTRY_BYTES then None
    else
      var f := GetWords(b, 5);
      var rest := b[ENTRY_BYTES..];
      if f[0] > |rest| then None
      else
        var e := Entry(rest[..f[0]], f[1], f[2], f[3], f[4]);
        WordBytesRoundTrip(b, 5);
        assert Fixed(e) == f;
        Some((e, rest[f[0]..]))
  }

  lemma ReadsWhatWasPrinted(e: Entry, rest: seq<Byte>)
    requires |e.host| < TWO32
    ensures ReadEntry(PrintEntry(e) + rest) == Some((e, rest))
  {
    var b := PrintEntry(e) + rest;
    assert b == PutWords(Fixed(e)) + (e.host + rest);
    WordsRoundTrip(Fixed(e), e.host + rest);
    assert GetWords(b, 5) == Fixed(e);
    assert b[ENTRY_BYTES..] == e.host + rest;
  }

  /** The first n entries off the front. */
  function ReadEntries(b: seq<Byte>, n: nat): (r: Option<(seq<Entry>, seq<Byte>)>)
    decreases n
  {
    if n == 0 then Some(([], b))
    else
      var first := ReadEntry(b);
      if first.None? then None
      else
        var others := ReadEntries(first.value.1, n - 1);
        if others.None? then None else Some(([first.value.0] + others.value.0, others.value.1))
  }

  lemma {:induction false} EntriesRoundTrip(es: seq<Entry>, rest: seq<Byte>)
    requires Printable(es)
    ensures ReadEntries(PrintEntries(es) + rest, |es|) == Some((es, rest))
  {
    hide PrintEntry, ReadEntry;
    if es == [] {
      assert [] + rest == rest;
    } else {
      assert PrintEntries(es) + rest == PrintEntry(es[0]) + (PrintEntries(es[1..]) + rest);
      ReadsWhatWasPrinted(es[0], PrintEntries(es[1..]) + rest);
      EntriesRoundTrip(es[1..], rest);
      assert es == [es[0]] + es[1..];
    }
  }

  lemma {:induction false} ReadEntriesPrint(b: seq<Byte>, n: nat)
    requires ReadEntries(b, n).Some?
    ensures var es := ReadEntries(b, n).value.0;
      |es| == n && Printable(es) && b == PrintEntries(es) + ReadEntries(b, n).value.1
    decreases n
  {
    hide PrintEntry, ReadEntry;
    if n > 0 {
      var first := ReadEntry(b).value;
      ReadEntriesPrint(first.1, n - 1);
      var others := ReadEntries(first.1, n - 1).value;
      PrintCons(first.0, others.0);
      assert PrintEntry(first.0) + (PrintEntries(others.0) + others.1)
        == PrintEntry(first.0) + PrintEntries(others.0) + others.1;
    } else {
      assert b == [] + b;
    }
  }

  lemma PrintCons(e: Entry, es: seq<Entry>)
    requires Printable(es) && |e.host| < TWO32
    ensures Printable([e] + es) && PrintEntries([e] + es) == PrintEntry(e) + PrintEntries(es)
  {
    assert ([e] + es)[1..] == es;
  }

  /** The way back as a reader sees it. */
  function ReadReturn(b: seq<Byte>): (r: Option<Return>)
    ensures r.Some? ==> 0 !in r.value.host && |r.value.host| < MAX_HOST
    ensures r.Some? ==> b == PutWords([r.value.kind, |r.value.host|, r.value.port]) + r.value.host
  {
    if |b| < RETURN_BYTES then None
    else
      var f := GetWords(b, 3);
      var host := b[RETURN_BYTES..];
      WordBytesRoundTrip(b, 3);
      if f[1] >= MAX_HOST || f[1] != |host| || 0 in host then None
      else
        assert f == [f[0], |host|, f[2]];
        Some(Return(f[0], f[2], host))
  }

  lemma ReturnRoundTrip()
    ensures ReadReturn(PrintReturn()) == Some(Return(RETURN_UPSTREAM, 0, []))
  {
    WordsRoundTrip([RETURN_UPSTREAM, 0, 0], []);
    assert PrintReturn() + [] == PrintReturn();
  }

  // ---------------------------------------------------------------- the three readers

  /** Entry `target` of the payload, if it and all entries before it have usable hosts. */
  function Lookup(b: seq<Byte>, target: nat): Option<Entry>
    decreases target
  {
    var first := ReadEntry(b);
    if first.None? || !HostOk(first.value.0.host) then None
    else if target == 0 then Some(first.value.0)
    else Lookup(first.value.1, target - 1)
  }

  /** The way back after n entries; hosts are only checked for NUL bytes. */
  function ReturnAfter(b: seq<Byte>, n: nat): Option<Return>
    decreases n
  {
    if n == 0 then ReadReturn(b)
    else
      var first := ReadEntry(b);
      if first.None? || 0 in first.value.0.host then None else ReturnAfter(first.value.1, n - 1)
  }

  method GetEntry(b: seq<Byte>, count: nat, target: nat) returns (r: Option<Entry>)
    ensures r == if target < count then Lookup(b, target) else None
  {
    hide ReadEntry, HostOk;
    if target >= count {
      return None;
    }
    var rest, i := b, 0;
    while i < count
      invariant 0 <= i <= target && Lookup(rest, target - i) == Lookup(b, target)
    {
      var first := ReadEntry(rest);
      if first.None? || !HostOk(first.value.0.host) {
        return None;
      }
      if i == target {
        return Some(first.value.0);
      }
      rest := first.value.1;
      i := i + 1;
    }
  }

  method GetReturnTarget(b: seq<Byte>, count: nat) returns (r: Option<Return>)
    ensures r == if count == 0 then None else ReturnAfter(b, count)
  {
    hide ReadEntry, ReadReturn;
    if count == 0 {
      return None;
    }
    var rest, i := b, 0;
    while i < count
      invariant 0 <= i <= count && ReturnAfter(rest, count - i) == ReturnAfter(b, count)
    {
      var first := ReadEntry(rest);
      if first.None? || 0 in first.value.0.host {
        return None;
      }
      rest := first.value.1;
      i := i + 1;
    }
    r := ReadReturn(rest);
  }

  /** What the validator decides for the rest of a payload: n entries to go, the next one starting at
      layer `next` unless it is the first. */
  predicate ValidFrom(b: seq<Byte>, n: nat, nLayers: U32, next: Option<U32>)
    decreases n
  {
    if n == 0 then ReadReturn(b) == Some(Return(RETURN_UPSTREAM, 0, []))
    else
      var first := ReadEntry(b);
      && first.Some?
      && EntryOk(first.value.0, nLayers)
      && (next.Some? ==> first.value.0.layerStart == next.value)
      && ValidFrom(first.value.1, n - 1, nLayers, Some(first.value.0.layerEnd + 1))
  }

  /** The validator accepts exactly the printed forms of contiguous routes of the announced length. */
  method Validate(b: seq<Byte>, count: nat, nLayers: U32) returns (ok: bool)
    ensures ok <==> if count == 0 then b == [] else ValidFrom(b, count, nLayers, None)
  {
    hide ReadEntry, ReadReturn, EntryOk;
    if count == 0 {
      return |b| == 0;
    }
    var rest, i, next: Option<U32> := b, 0, None;
    while i < count
      invariant 0 <= i <= count
      invariant ValidFrom(rest, count - i, nLayers, next) == ValidFrom(b, count, nLayers, None)
    {
      var first := ReadEntry(rest);
      if first.None? || !EntryOk(first.value.0, nLayers) || (next.Some? && first.value.0.layerStart != next.value) {
        return false;
      }
      EndsBelow(first.value.0, nLayers);
      rest, next := first.value.1, Some(first.value.0.layerEnd + 1);
      i := i + 1;
    }
    var ret := ReadReturn(rest);
    ok := ret.Some? && ret.value.kind == RETURN_UPSTREAM && |ret.value.host| == 0 && ret.value.port == 0;
  }

  lemma EndsBelow(e: Entry, nLayers: U32)
    requires EntryOk(e, nLayers)
    ensures e.layerEnd + 1 <= nLayers
  {
  }

  // ---------------------------------------------------------------- printer and readers undo each other

  lemma {:induction false} PrintedIsValid(es: seq<Entry>, nLayers: U32, next: Option<U32>)
    requires Printable(es) && RouteOk(es, nLayers)
    requires es != [] && next.Some? ==> es[0].layerStart == next.value
    ensures ValidFrom(PrintEntries(es) + PrintReturn(), |es|, nLayers, next)
  {
    hide ReadEntry, ReadReturn, PrintEntry, PrintReturn;
    if es == [] {
      ReturnRoundTrip();
      assert [] + PrintReturn() == PrintReturn();
    } else {
      var rest := PrintEntries(es[1..]) + PrintReturn();
      assert PrintEntries(es) + PrintReturn() == PrintEntry(es[0]) + rest;
      ReadsWhatWasPrinted(es[0], rest);
      assert Contiguous(es[1..]) by {
        assert forall i :: 0 < i < |es[1..]| ==> es[1..][i] == es[i + 1] && es[1..][i - 1] == es[i];
      }
      assert |es| > 1 ==> es[1].layerStart == es[1 - 1].layerEnd + 1;
      PrintedIsValid(es[1..], nLayers, Some(es[0].layerEnd + 1));
    }
  }

  lemma UpstreamIsPrinted(b: seq<Byte>)
    requires ReadReturn(b) == Some(Return(RETURN_UPSTREAM, 0, []))
    ensures b == PrintReturn()
  {
  }

  /** What the validator accepts is the printed form of the entries it read. */
  lemma {:induction false} ValidWasPrinted(b: seq<Byte>, n: nat, nLayers: U32, next: Option<U32>)
    requires ValidFrom(b, n, nLayers, next)
    ensures ReadEntries(b, n).Some?
    ensures var es := ReadEntries(b, n).value.0;
      && |es| == n && Printable(es) && RouteOk(es, nLayers)
      && (es != [] && next.Some? ==> es[0].layerStart == next.value)
      && b == PrintEntries(es) + PrintReturn()
    decreases n
  {
    hide ReadEntry, PrintEntry, PrintReturn, EntryOk;
    if n == 0 {
      UpstreamIsPrinted(b);
      assert [] + b == b;
    } else {
      var first := ReadEntry(b).value;
      EndsBelow(first.0, nLayers);
      ValidWasPrinted(first.1, n - 1, nLayers, Some(first.0.layerEnd + 1));
      var others := ReadEntries(first.1, n - 1).value.0;
      PrintCons(first.0, others);
      assert PrintEntry(first.0) + (PrintEntries(others) + PrintReturn())
        == PrintEntry(first.0) + PrintEntries(others) + PrintReturn();
      assert forall i :: 0 < i < n ==> ([first.0] + others)[i] == others[i - 1];
    }
  }

  /** Every printed route, of any number of hops, passes the validator. */
  lemma BuiltBlobValidates(es: seq<Entry>, nLayers: U32)
    requires Printable(es) && RouteOk(es, nLayers)
    ensures if es == [] then PrintRoute(es) == [] else ValidFrom(PrintRoute(es), |es|, nLayers, None)
  {
    if es != [] {
      PrintedIsValid(es, nLayers, None);
    }
  }

  lemma PrintedRouteIsValid(es: seq<Entry>, nLayers: U32)
    requires es != [] && RouteOk(es, nLayers) && Printable(es)
    ensures ValidFrom(PrintRoute(es), |es|, nLayers, None)
  {
    hide ValidFrom, RouteOk;
    PrintedIsValid(es, nLayers, None);
  }

  /** A payload is valid for `count` hops exactly when it is the printed form of some contiguous route of that length,
      with usable addresses, slices inside the model, and an output head only where the model ends. */
  lemma ValidIffPrinted(b: seq<Byte>, count: nat, nLayers: U32)
    requires count > 0
    ensures ValidFrom(b, count, nLayers, None) <==> exists es: seq<Entry> ::
      && |es| == count && Printable(es) && PrintRoute(es) == b
      && (forall i :: 0 <= i < |es| ==>
            && 0 < |es[i].host| <= 1024 && 0 !in es[i].host && 1 <= es[i].port <= 65535
            && es[i].layerStart <= es[i].layerEnd < nLayers
            && (es[i].flags == 0 || (es[i].flags == 1 && es[i].layerEnd + 1 == nLayers)))
      && (forall i :: 0 < i < |es| ==> es[i].layerStart == es[i - 1].layerEnd + 1)
  {
    hide ValidFrom, PrintEntries, PrintReturn;
    if ValidFrom(b, count, nLayers, None) {
      ValidWasPrinted(b, count, nLayers, None);
      assert forall i :: 0 <= i < count ==> EntryOk(ReadEntries(b, count).value.0[i], nLayers);
    }
    forall es: seq<Entry> |
      && |es| == count && Printable(es) && PrintRoute(es) == b
      && (forall i :: 0 <= i < |es| ==>
            && 0 < |es[i].host| <= 1024 && 0 !in es[i].host && 1 <= es[i].port <= 65535
            && es[i].layerStart <= es[i].layerEnd < nLayers
            && (es[i].flags == 0 || (es[i].flags == 1 && es[i].layerEnd + 1 == nLayers)))
      && (forall i :: 0 < i < |es| ==> es[i].layerStart == es[i - 1].layerEnd + 1)
      ensures ValidFrom(b, count, nLayers, None)
    {
      PrintedRouteIsValid(es, nLayers);
    }
  }

  /** And of only one. */
  lemma PrintedOnce(es: seq<Entry>, fs: seq<Entry>)
    requires Printable(es) && Printable(fs) && |es| == |fs| && PrintRoute(es) == PrintRoute(fs)
    ensures es == fs
  {
    if es != [] {
      EntriesRoundTrip(es, PrintReturn());
      EntriesRoundTrip(fs, PrintReturn());
    }
  }

  lemma {:induction false} LookupFinds(es: seq<Entry>, rest: seq<Byte>, i: nat)
    requires Printable(es) && i < |es| && forall k :: 0 <= k < |es| ==> HostOk(es[k].host)
    ensures Lookup(PrintEntries(es) + rest, i) == Some(es[i])
  {
    hide ReadEntry, PrintEntry, HostOk;
    assert PrintEntries(es) + rest == PrintEntry(es[0]) + (PrintEntries(es[1..]) + rest);
    ReadsWhatWasPrinted(es[0], PrintEntries(es[1..]) + rest);
    if i > 0 {
      LookupFinds(es[1..], rest, i - 1);
    }
  }

  lemma {:induction false} ReturnIsFound(es: seq<Entry>)
    requires Printable(es) && forall k :: 0 <= k < |es| ==> HostOk(es[k].host)
    ensures ReturnAfter(PrintEntries(es) + PrintReturn(), |es|) == Some(Return(RETURN_UPSTREAM, 0, []))
  {
    hide ReadEntry, PrintEntry, PrintReturn, ReadReturn;
    if es == [] {
      assert [] + PrintReturn() == PrintReturn();
      ReturnRoundTrip();
    } else {
      var rest := PrintEntries(es[1..]) + PrintReturn();
      assert PrintEntries(es) + PrintReturn() == PrintEntry(es[0]) + rest;
      ReadsWhatWasPrinted(es[0], rest);
      assert HostOk(es[0].host);
      ReturnIsFound(es[1..]);
    }
  }

  /** On every payload that validates, the other two readers agree with it: entry i is found for every i,
      and the result goes back upstream. */
  lemma ReadersAgree(b: seq<Byte>, count: nat, nLayers: U32)
    requires count > 0 && ValidFrom(b, count, nLayers, None)
    ensures ReadEntries(b, count).Some? && |ReadEntries(b, count).value.0| == count
    ensures forall i: nat :: i < count ==> Lookup(b, i) == Some(ReadEntries(b, count).value.0[i])
    ensures ReturnAfter(b, count) == Some(Return(RETURN_UPSTREAM, 0, []))
  {
    hide ValidFrom, Lookup, ReturnAfter, PrintEntries, PrintReturn;
    ValidWasPrinted(b, count, nLayers, None);
    var es := ReadEntries(b, count).value.0;
    assert forall k :: 0 <= k < |es| ==> EntryOk(es[k], nLayers);
    forall i: nat | i < count ensures Lookup(b, i) == Some(es[i]) {
      LookupFinds(es, PrintReturn(), i);
    }
    ReturnIsFound(es);
  }
}
