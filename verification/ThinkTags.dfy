/** Splitting model output at <think> and </think>, in one pass or piece by piece. */
module ThinkTags {

  const OPEN: string := "<think>"
  const CLOSE: string := "</think>"
  const PENDING_CAP: nat := 16

  predicate HasPrefix(s: string, tag: string) {
    |s| >= |tag| && s[..|tag|] == tag
  }

  predicate IsPartial(s: string, tag: string) {
    |s| < |tag| && tag[..|s|] == s
  }

  /** What the text so far may still become. */
  predicate MayBeTag(s: string) {
    s != [] && s[0] == '<' && (IsPartial(s, OPEN) || IsPartial(s, CLOSE))
  }

  datatype Event = Opened | Closed | Visible(c: char)

  /** The whole text in one pass. */
  function Scan(s: string): seq<Event> {
    if s == [] then []
    else if HasPrefix(s, OPEN) then [Opened] + Scan(s[|OPEN|..])
    else if HasPrefix(s, CLOSE) then [Closed] + Scan(s[|CLOSE|..])
    else [Visible(s[0])] + Scan(s[1..])
  }

  /** As far as the text can be decided before more of it is known, and what must wait. */
  function ScanKnown(s: string): (seq<Event>, string) {
    if s == [] then ([], [])
    else if HasPrefix(s, OPEN) then Prepend(Opened, ScanKnown(s[|OPEN|..]))
    else if HasPrefix(s, CLOSE) then Prepend(Closed, ScanKnown(s[|CLOSE|..]))
    else if MayBeTag(s) then ([], s)
    else Prepend(Visible(s[0]), ScanKnown(s[1..]))
  }

  function Prepend(e: Event, r: (seq<Event>, string)): (seq<Event>, string) {
    ([e] + r.0, r.1)
  }

  // ---------------------------------------------------------------- what one pass means

  function TextOf(e: Event): string {
    match e
    case Opened => OPEN
    case Closed => CLOSE
    case Visible(c) => [c]
  }

  function Text(es: seq<Event>): string {
    if es == [] then [] else TextOf(es[0]) + Text(es[1..])
  }

  /** How much text the first event takes. */
  function Taken(s: string): (n: nat)
    requires s != []
    ensures 0 < n <= |s|
  {
    if HasPrefix(s, OPEN) then |OPEN| else if HasPrefix(s, CLOSE) then |CLOSE| else 1
  }

  lemma ScanSteps(s: string)
    requires s != []
    ensures Scan(s) != [] && Scan(s)[1..] == Scan(s[Taken(s)..]) && TextOf(Scan(s)[0]) == s[..Taken(s)]
    ensures Scan(s)[0].Visible? ==> !HasPrefix(s, OPEN) && !HasPrefix(s, CLOSE)
  {
  }

  /** One pass loses nothing. */
  lemma {:induction false} ScanIsLossless(s: string)
    ensures Text(Scan(s)) == s
    decreases |s|
  {
    if s != [] {
      hide Scan, TextOf, Taken, HasPrefix;
      ScanSteps(s);
      ScanIsLossless(s[Taken(s)..]);
      assert s == s[..Taken(s)] + s[Taken(s)..];
    }
  }

  /** And it leaves no tag behind: no visible character starts one. */
  lemma {:induction false} ScanLeavesNoTag(s: string, i: nat)
    requires i < |Scan(s)| && Scan(s)[i].Visible?
    ensures !HasPrefix(Text(Scan(s)[i..]), OPEN) && !HasPrefix(Text(Scan(s)[i..]), CLOSE)
    decreases |s|
  {
    hide TextOf, Taken, HasPrefix, Text;
    var es := Scan(s);
    if s != [] {
      ScanSteps(s);
      hide Scan;
      if i == 0 {
        ScanIsLossless(s);
        assert es[0..] == es;
      } else {
        assert es[i] == es[1..][i - 1] && es[i..] == es[1..][i - 1..];
        ScanLeavesNoTag(s[Taken(s)..], i - 1);
      }
    }
  }

  // ---------------------------------------------------------------- pieces

  lemma StillPrefixed(s: string, t: string, tag: string)
    requires HasPrefix(s, tag)
    ensures HasPrefix(s + t, tag) && (s + t)[|tag|..] == s[|tag|..] + t
  {
    assert (s + t)[..|tag|] == s[..|tag|];
  }

  lemma StillNotPrefixed(s: string, t: string, tag: string)
    requires s != [] && !HasPrefix(s, tag) && (s[0] != '<' || !IsPartial(s, tag)) && tag != [] && tag[0] == '<'
    ensures !HasPrefix(s + t, tag)
  {
    if |s| >= |tag| {
      assert (s + t)[..|tag|] == s[..|tag|];
    } else if |s + t| >= |tag| {
      assert (s + t)[..|tag|][..|s|] == s && (s + t)[..|tag|][0] == s[0];
    }
  }

  /** What was decided early would have been decided the same way with all the text at hand. */
  lemma {:induction false} KnownEarly(s: string, t: string)
    ensures Scan(s + t) == ScanKnown(s).0 + Scan(ScanKnown(s).1 + t)
    ensures ScanKnown(s + t) == (ScanKnown(s).0 + ScanKnown(ScanKnown(s).1 + t).0, ScanKnown(ScanKnown(s).1 + t).1)
    decreases |s|
  {
    if s == [] {
      assert s + t == t;
    } else if HasPrefix(s, OPEN) || HasPrefix(s, CLOSE) {
      var tag := if HasPrefix(s, OPEN) then OPEN else CLOSE;
      StillPrefixed(s, t, tag);
      if tag == CLOSE { NotBoth(s + t); }
      KnownEarly(s[|tag|..], t);
      Regroup(if tag == OPEN then Opened else Closed, ScanKnown(s[|tag|..]).0, Scan(ScanKnown(s).1 + t));
      Regroup(if tag == OPEN then Opened else Closed, ScanKnown(s[|tag|..]).0, ScanKnown(ScanKnown(s).1 + t).0);
    } else if !MayBeTag(s) {
      StillNotPrefixed(s, t, OPEN);
      StillNotPrefixed(s, t, CLOSE);
      StillNoTag(s, t);
      assert (s + t)[1..] == s[1..] + t && (s + t)[0] == s[0];
      KnownEarly(s[1..], t);
      Regroup(Visible(s[0]), ScanKnown(s[1..]).0, Scan(ScanKnown(s).1 + t));
      Regroup(Visible(s[0]), ScanKnown(s[1..]).0, ScanKnown(ScanKnown(s).1 + t).0);
    } else {
      assert ScanKnown(s) == ([], s);
      assert [] + Scan(s + t) == Scan(s + t) && [] + ScanKnown(s + t).0 == ScanKnown(s + t).0;
    }
  }

  lemma NotBoth(s: string)
    requires HasPrefix(s, CLOSE)
    ensures !HasPrefix(s, OPEN)
  {
    assert s[..|CLOSE|][1] == s[1] == '/';
    assert |s| >= |OPEN| ==> s[..|OPEN|][1] == s[1];
  }

  lemma StillNoTag(s: string, t: string)
    requires s != [] && !HasPrefix(s, OPEN) && !HasPrefix(s, CLOSE) && !MayBeTag(s)
    ensures !MayBeTag(s + t)
  {
    if |s| <= |s + t| < |OPEN| { assert OPEN[..|s + t|][..|s|] == OPEN[..|s|]; }
    if |s| <= |s + t| < |CLOSE| { assert CLOSE[..|s + t|][..|s|] == CLOSE[..|s|]; }
    assert (s + t)[..|s|] == s;
  }

  lemma Regroup(e: Event, a: seq<Event>, b: seq<Event>)
    ensures [e] + (a + b) == [e] + a + b
  {
  }

  /** The text that has to wait is shorter than the longest tag, so it fits the pending buffer. */
  lemma {:induction false} PendingFits(s: string)
    ensures |ScanKnown(s).1| <= 7 < PENDING_CAP
    ensures ScanKnown(ScanKnown(s).1) == ([], ScanKnown(s).1)
    decreases |s|
  {
    if s != [] {
      if HasPrefix(s, OPEN) { PendingFits(s[|OPEN|..]); }
      else if HasPrefix(s, CLOSE) { PendingFits(s[|CLOSE|..]); }
      else if !MayBeTag(s) { PendingFits(s[1..]); }
    }
  }

  // ---------------------------------------------------------------- any chunking

  function Join(pieces: seq<string>): string {
    if pieces == [] then [] else pieces[0] + Join(pieces[1..])
  }

  /** The events of feeding pieces one after the other, behind some pending text, and then finishing. */
  function Streamed(pending: string, pieces: seq<string>): seq<Event>
    decreases |pieces|
  {
    if pieces == [] then Scan(pending)
    else
      var r := ScanKnown(pending + pieces[0]);
      r.0 + Streamed(r.1, pieces[1..])
  }

  /** Streaming is independent of chunking: any pieces give the events of one pass over the whole text. */
  lemma {:induction false} StreamedIsScan(pending: string, pieces: seq<string>)
    ensures Streamed(pending, pieces) == Scan(pending + Join(pieces))
    decreases |pieces|
  {
    hide Scan, ScanKnown;
    if pieces == [] {
      assert pending + [] == pending;
    } else {
      var s := pending + pieces[0];
      var r := ScanKnown(s);
      StreamedIsScan(r.1, pieces[1..]);
      KnownEarly(s, Join(pieces[1..]));
      assert pending + Join(pieces) == s + Join(pieces[1..]);
    }
  }
}
