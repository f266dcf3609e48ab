/** The two streaming printers that split thinking from the answer: the command line's, which writes
    terminal colours, and the evaluator's, which records a style per character. */
module ThinkPrinter {
  import opened ThinkTags

  const GREY: string := "\U{1B}[90m"
  const RESET: string := "\U{1B}[0m"

  // ---------------------------------------------------------------- the command line printer

  /** What the printer has shown and how it stands. */
  datatype Look = Look(inThink: bool, colorOpen: bool, newline: bool, out: string)

  function Uncolor(useColor: bool, v: Look): Look {
    if useColor && v.colorOpen then v.(out := v.out + RESET, colorOpen := false) else v
  }

  function Show(useColor: bool, v: Look, e: Event): Look {
    match e
    case Opened => v.(inThink := true)
    case Closed =>
      var plain := Uncolor(useColor, v.(inThink := false));
      if plain.newline then plain else plain.(out := plain.out + "\n", newline := true)
    case Visible(c) =>
      var grey := if v.inThink && useColor && !v.colorOpen then v.(out := v.out + GREY, colorOpen := true) else v;
      grey.(out := grey.out + [c], newline := c == '\n')
  }

  function ShowAll(useColor: bool, v: Look, es: seq<Event>): Look
    decreases |es|
  {
    if es == [] then v else ShowAll(useColor, Show(useColor, v, es[0]), es[1..])
  }

  lemma {:induction false} ShowsInSequence(useColor: bool, v: Look, a: seq<Event>, b: seq<Event>)
    ensures ShowAll(useColor, v, a + b) == ShowAll(useColor, ShowAll(useColor, v, a), b)
    decreases |a|
  {
    if a == [] {
      assert a + b == b;
    } else {
      assert (a + b)[1..] == a[1..] + b;
      ShowsInSequence(useColor, Show(useColor, v, a[0]), a[1..], b);
    }
  }

  /** Colour is only on inside thinking. */
  predicate Tidy(useColor: bool, v: Look) {
    v.colorOpen ==> useColor && v.inThink
  }

  /** Every visible character is written in grey exactly when it is thought, and a closing tag ends the colour and
      the line. */
  lemma ShowIsTidy(useColor: bool, v: Look, e: Event)
    requires Tidy(useColor, v)
    ensures Tidy(useColor, Show(useColor, v, e))
    ensures e.Visible? ==> Show(useColor, v, e).colorOpen == (useColor && v.inThink)
    ensures e.Closed?
      ==> !Show(useColor, v, e).colorOpen && Show(useColor, v, e).newline && !Show(useColor, v, e).inThink
  {
  }

  lemma {:induction false} ShowAllIsTidy(useColor: bool, v: Look, es: seq<Event>)
    requires Tidy(useColor, v)
    ensures Tidy(useColor, ShowAll(useColor, v, es))
    decreases |es|
  {
    hide Show, Tidy;
    if es != [] {
      ShowIsTidy(useColor, v, es[0]);
      ShowAllIsTidy(useColor, Show(useColor, v, es[0]), es[1..]);
    }
  }

  lemma ColourEnds(useColor: bool, v: Look, es: seq<Event>)
    ensures Tidy(useColor, v) ==> !Uncolor(useColor, ShowAll(useColor, v, es)).colorOpen
  {
    if Tidy(useColor, v) { ShowAllIsTidy(useColor, v, es); }
  }

  class TokenPrinter {
    const useColor: bool
    const formatThinking: bool
    const pending: array<char>
    var pendingLen: nat
    var inThink: bool
    var colorOpen: bool
    var lastOutputNewline: bool
    var out: string

    ghost predicate Valid()
      reads this, pending
    {
      pending.Length == PENDING_CAP && pendingLen <= 7 && ScanKnown(Pending()) == ([], Pending())
    }

    function Pending(): string
      reads this, pending
      requires pendingLen <= pending.Length
    {
      pending[..pendingLen]
    }

    function View(): Look
      reads this
    {
      Look(inThink, colorOpen, lastOutputNewline, out)
    }

    constructor (useColor: bool, formatThinking: bool, inThink: bool)
      ensures Valid() && fresh(pending) && Pending() == "" && View() == Look(inThink, false, true, "")
      ensures this.useColor == useColor && this.formatThinking == formatThinking
    {
      this.useColor, this.formatThinking, this.inThink := useColor, formatThinking, inThink;
      pending, pendingLen := new char[PENDING_CAP], 0;
      colorOpen, lastOutputNewline, out := false, true, "";
    }

    method SetGrey()
      modifies this`colorOpen, this`out
      ensures out == old(out) + if useColor && !old(colorOpen) then GREY else ""
      ensures colorOpen == (old(colorOpen) || useColor)
    {
      if useColor && !colorOpen {
        out := out + GREY;
        colorOpen := true;
      }
    }

    method ResetColor()
      modifies this`colorOpen, this`out
      ensures View() == Uncolor(useColor, old(View()))
    {
      if useColor && colorOpen {
        out := out + RESET;
        colorOpen := false;
      }
    }

    method WriteChar(c: char)
      modifies this`colorOpen, this`out, this`lastOutputNewline
      ensures View() == Show(useColor, old(View()), Visible(c))
    {
      if inThink {
        SetGrey();
      }
      out := out + [c];
      lastOutputNewline := c == '\n';
    }

    /** Feeds one piece of text; at the end also what was waiting for more. */
    method Process(text: string, finish: bool)
      requires Valid()
      modifies this`pendingLen, this`inThink, this`colorOpen, this`lastOutputNewline, this`out, pending
      ensures Valid()
      ensures (View(), Pending()) == Fed(useColor, old(View()), old(Pending()) + text, finish)
    {
      hide Show, HasPrefix, MayBeTag, Fed, Uncolor;
      var buf := pending[..pendingLen] + text;
      PendingFits(buf);
      pendingLen := 0;
      var rest := buf;
      while |rest| > 0
        invariant pendingLen == 0
        invariant Fed(useColor, View(), rest, finish) == Fed(useColor, old(View()), buf, finish)
        decreases |rest|
      {
        FedSteps(useColor, View(), rest, finish);
        if HasPrefix(rest, OPEN) {
          OpenedShown(useColor, View());
          inThink := true;
          rest := rest[|OPEN|..];
        } else if HasPrefix(rest, CLOSE) {
          ClosedShown(useColor, View());
          inThink := false;
          ResetColor();
          if !lastOutputNewline {
            out := out + "\n";
            lastOutputNewline := true;
          }
          rest := rest[|CLOSE|..];
        } else if !finish && MayBeTag(rest) {
          if |rest| < PENDING_CAP {
            forall k | 0 <= k < |rest| {
              pending[k] := rest[k];
            }
            pendingLen := |rest|;
          }
          assert Pending() == rest;
          PendingStands(useColor, View(), rest, old(View()), buf);
          return;
        } else {
          WriteChar(rest[0]);
          rest := rest[1..];
        }
      }
      assert Pending() == "";
      FedNothing(useColor, View(), finish);
    }

    /** Raw text is written through; formatted text is split. */
    method WriteText(text: string)
      requires Valid()
      modifies this`pendingLen, this`inThink, this`colorOpen, this`lastOutputNewline, this`out, pending
      ensures Valid()
      ensures formatThinking ==> (View(), Pending()) == Fed(useColor, old(View()), old(Pending()) + text, false)
      ensures !formatThinking ==> Pending() == old(Pending()) && out == old(out) + text
      ensures !formatThinking
        ==> lastOutputNewline == if text == "" then old(lastOutputNewline) else text[|text| - 1] == '\n'
    {
      if formatThinking {
        Process(text, false);
      } else if |text| != 0 {
        out := out + text;
        lastOutputNewline := text[|text| - 1] == '\n';
      }
    }

    method Finish()
      requires Valid()
      modifies this`pendingLen, this`inThink, this`colorOpen, this`lastOutputNewline, this`out, pending
      ensures Valid()
      ensures formatThinking
        ==> Pending() == "" && View() == Uncolor(useColor, ShowAll(useColor, old(View()), Scan(old(Pending()))))
      ensures !formatThinking ==> View() == old(View())
    {
      if formatThinking {
        assert old(Pending()) + "" == old(Pending());
        Process("", true);
        ResetColor();
      }
    }

    /** The end of a generation: what was waiting is shown, colour is off, and the line is complete. */
    method GenerationDone()
      requires Valid()
      modifies this`pendingLen, this`inThink, this`colorOpen, this`lastOutputNewline, this`out, pending
      ensures Valid() && lastOutputNewline
      ensures formatThinking ==> Pending() == "" && (Tidy(useColor, old(View())) ==> !colorOpen)
    {
      hide ShowAll;
      ColourEnds(useColor, View(), Scan(Pending()));
      Finish();
      if !lastOutputNewline {
        out := out + "\n";
        lastOutputNewline := true;
      }
    }

    /** A generation's pieces of text and its end: the output is that of one pass over their
        concatenation, however it was cut into pieces. */
    method PrintAll(pieces: seq<string>)
      requires Valid() && formatThinking && Pending() == ""
      modifies this`pendingLen, this`inThink, this`colorOpen, this`lastOutputNewline, this`out, pending
      ensures Valid() && View() == Uncolor(useColor, ShowAll(useColor, old(View()), Scan(Join(pieces))))
    {
      hide Scan, ScanKnown, ShowAll, Uncolor, Join, Streamed;
      var i := 0;
      assert pieces[0..] == pieces;
      while i < |pieces|
        invariant 0 <= i <= |pieces| && Valid()
        invariant ShowAll(useColor, View(), Streamed(Pending(), pieces[i..]))
          == ShowAll(useColor, old(View()), Streamed("", pieces))
      {
        var r := ScanKnown(Pending() + pieces[i]);
        StreamedStep(Pending(), pieces[i..]);
        assert pieces[i..][1..] == pieces[i + 1..];
        ShowsInSequence(useColor, View(), r.0, Streamed(r.1, pieces[i + 1..]));
        WriteText(pieces[i]);
        i := i + 1;
      }
      StreamedEnd(Pending(), pieces[i..]);
      Finish();
      StreamedIsScan("", pieces);
      assert "" + Join(pieces) == Join(pieces);
    }
  }

  /** The look and the waiting text after some text was fed, or fed and finished. */
  function Fed(useColor: bool, v: Look, s: string, finish: bool): (Look, string) {
    if finish then (ShowAll(useColor, v, Scan(s)), "") else (ShowAll(useColor, v, ScanKnown(s).0), ScanKnown(s).1)
  }

  lemma FedNothing(useColor: bool, v: Look, finish: bool)
    ensures Fed(useColor, v, "", finish) == (v, "")
  {
  }

  /** Feeding some text is showing its first event and feeding the rest, unless it has to wait. */
  lemma FedSteps(useColor: bool, v: Look, s: string, finish: bool)
    requires s != []
    ensures HasPrefix(s, OPEN)
      ==> |s| >= |OPEN| && Fed(useColor, v, s, finish) == Fed(useColor, Show(useColor, v, Opened), s[|OPEN|..], finish)
    ensures !HasPrefix(s, OPEN) && HasPrefix(s, CLOSE) ==>
      |s| >= |CLOSE| && Fed(useColor, v, s, finish) == Fed(useColor, Show(useColor, v, Closed), s[|CLOSE|..], finish)
    ensures !HasPrefix(s, OPEN) && !HasPrefix(s, CLOSE) && (finish || !MayBeTag(s)) ==>
      Fed(useColor, v, s, finish) == Fed(useColor, Show(useColor, v, Visible(s[0])), s[1..], finish)
    ensures !HasPrefix(s, OPEN) && !HasPrefix(s, CLOSE) && !finish && MayBeTag(s) ==>
      Fed(useColor, v, s, finish) == (v, s) && |s| <= 7 && ScanKnown(s) == ([], s)
  {
    hide HasPrefix, MayBeTag, Show, Scan, ScanKnown;
    FirstEvent(s);
    ShowsFirst(useColor, v, Scan(s));
    ShowsFirst(useColor, v, ScanKnown(s).0);
  }

  lemma ShowsFirst(useColor: bool, v: Look, es: seq<Event>)
    ensures es == [] ==> ShowAll(useColor, v, es) == v
    ensures es != [] ==> ShowAll(useColor, v, es) == ShowAll(useColor, Show(useColor, v, es[0]), es[1..])
  {
  }

  lemma PendingStands(useColor: bool, v: Look, rest: string, v0: Look, buf: string)
    requires ScanKnown(rest) == ([], rest) && Fed(useColor, v, rest, false) == Fed(useColor, v0, buf, false)
    ensures Fed(useColor, v0, buf, false) == (v, rest)
  {
  }

  lemma StreamedStep(pending: string, pieces: seq<string>)
    requires pieces != []
    ensures Streamed(pending, pieces)
      == ScanKnown(pending + pieces[0]).0 + Streamed(ScanKnown(pending + pieces[0]).1, pieces[1..])
  {
  }

  lemma StreamedEnd(pending: string, pieces: seq<string>)
    requires pieces == []
    ensures Streamed(pending, pieces) == Scan(pending)
  {
  }

  /** The first decision about some text, in both ways of scanning it. */
  lemma FirstEvent(s: string)
    requires s != []
    ensures HasPrefix(s, OPEN) ==> |s| >= |OPEN| && Scan(s) == [Opened] + Scan(s[|OPEN|..])
    ensures HasPrefix(s, OPEN) ==> ScanKnown(s) == Prepend(Opened, ScanKnown(s[|OPEN|..]))
    ensures !HasPrefix(s, OPEN) && HasPrefix(s, CLOSE) ==>
      |s| >= |CLOSE| && Scan(s) == [Closed] + Scan(s[|CLOSE|..])
        && ScanKnown(s) == Prepend(Closed, ScanKnown(s[|CLOSE|..]))
    ensures !HasPrefix(s, OPEN) && !HasPrefix(s, CLOSE) ==> Scan(s) == [Visible(s[0])] + Scan(s[1..])
    ensures !HasPrefix(s, OPEN) && !HasPrefix(s, CLOSE) && MayBeTag(s) ==> ScanKnown(s) == ([], s) && |s| <= 7
    ensures !HasPrefix(s, OPEN) && !HasPrefix(s, CLOSE) && !MayBeTag(s)
      ==> ScanKnown(s) == Prepend(Visible(s[0]), ScanKnown(s[1..]))
  {
  }

  lemma OpenedShown(useColor: bool, v: Look)
    ensures Show(useColor, v, Opened) == v.(inThink := true)
  {
  }

  lemma ClosedShown(useColor: bool, v: Look)
    ensures var plain := Uncolor(useColor, v.(inThink := false));
      Show(useColor, v, Closed) == if plain.newline then plain else plain.(out := plain.out + "\n", newline := true)
  {
  }

  // ---------------------------------------------------------------- the evaluator's stream

  /** The recorded text and the style of each of its characters: 1 for thinking, 0 for the answer. */
  datatype Record = Record(inThink: bool, stream: string, styles: seq<int>)

  function Styles(thinking: bool, n: nat): (r: seq<int>)
    ensures |r| == n
  {
    seq(n, i => if thinking then 1 else 0)
  }

  function Append(v: Record, text: string): (r: Record)
    ensures |v.stream| == |v.styles| ==> |r.stream| == |r.styles|
  {
    v.(stream := v.stream + text, styles := v.styles + Styles(v.inThink, |text|))
  }

  function Note(v: Record, e: Event): (r: Record)
    ensures |v.stream| == |v.styles| ==> |r.stream| == |r.styles|
  {
    match e
    case Opened => v.(inThink := true)
    case Closed => Append(v.(inThink := false), "\n")
    case Visible(c) => Append(v, [c])
  }

  function NoteAll(v: Record, es: seq<Event>): (r: Record)
    ensures |v.stream| == |v.styles| ==> |r.stream| == |r.styles|
    decreases |es|
  {
    if es == [] then v else NoteAll(Note(v, es[0]), es[1..])
  }

  lemma {:induction false} NotesInSequence(v: Record, a: seq<Event>, b: seq<Event>)
    ensures NoteAll(v, a + b) == NoteAll(NoteAll(v, a), b)
    decreases |a|
  {
    if a == [] {
      assert a + b == b;
    } else {
      assert (a + b)[1..] == a[1..] + b;
      NotesInSequence(Note(v, a[0]), a[1..], b);
    }
  }

  function NotedText(v: Record, s: string, finish: bool): (Record, string) {
    if finish then (NoteAll(v, Scan(s)), "") else (NoteAll(v, ScanKnown(s).0), ScanKnown(s).1)
  }

  lemma NotesFirst(v: Record, es: seq<Event>)
    ensures es == [] ==> NoteAll(v, es) == v
    ensures es != [] ==> NoteAll(v, es) == NoteAll(Note(v, es[0]), es[1..])
  {
  }

  lemma NotedNothing(v: Record, finish: bool)
    ensures NotedText(v, "", finish) == (v, "")
  {
  }

  lemma NotedSteps(v: Record, s: string, finish: bool)
    requires s != []
    ensures HasPrefix(s, OPEN)
      ==> |s| >= |OPEN| && NotedText(v, s, finish) == NotedText(Note(v, Opened), s[|OPEN|..], finish)
    ensures !HasPrefix(s, OPEN) && HasPrefix(s, CLOSE) ==>
      |s| >= |CLOSE| && NotedText(v, s, finish) == NotedText(Note(v, Closed), s[|CLOSE|..], finish)
    ensures !HasPrefix(s, OPEN) && !HasPrefix(s, CLOSE) && (finish || !MayBeTag(s)) ==>
      NotedText(v, s, finish) == NotedText(Note(v, Visible(s[0])), s[1..], finish)
    ensures !HasPrefix(s, OPEN) && !HasPrefix(s, CLOSE) && !finish && MayBeTag(s) ==>
      NotedText(v, s, finish) == (v, s) && |s| <= 7 && ScanKnown(s) == ([], s)
  {
    hide HasPrefix, MayBeTag, Note, Scan, ScanKnown;
    FirstEvent(s);
    NotesFirst(v, Scan(s));
    NotesFirst(v, ScanKnown(s).0);
  }

  class EvalStream {
    const pending: array<char>
    var pendingLen: nat
    var inThink: bool
    var stream: string
    var styles: seq<int>

    ghost predicate Valid()
      reads this, pending
    {
      pending.Length == PENDING_CAP && pendingLen <= 7 && |stream| == |styles|
    }

    function Pending(): string
      reads this, pending
      requires pendingLen <= pending.Length
    {
      pending[..pendingLen]
    }

    function View(): Record
      reads this
    {
      Record(inThink, stream, styles)
    }

    constructor (inThink: bool)
      ensures Valid() && fresh(pending) && Pending() == "" && View() == Record(inThink, "", [])
    {
      this.inThink := inThink;
      pending, pendingLen, stream, styles := new char[PENDING_CAP], 0, "", [];
    }

    method AppendVisible(text: string)
      modifies this`stream, this`styles
      ensures View() == Append(old(View()), text)
    {
      stream := stream + text;
      var style := if inThink then 1 else 0;
      var more: seq<int> := [];
      while |more| < |text|
        invariant |more| <= |text| && forall i :: 0 <= i < |more| ==> more[i] == style
      {
        more := more + [style];
      }
      assert more == Styles(inThink, |text|);
      styles := styles + more;
    }

    method AppendTokenText(text: string, finish: bool)
      requires Valid()
      modifies this, pending
      ensures Valid()
      ensures (View(), Pending()) == NotedText(old(View()), old(Pending()) + text, finish)
    {
      hide Append, HasPrefix, MayBeTag, NotedText;
      var buf := pending[..pendingLen] + text;
      pendingLen := 0;
      var rest := buf;
      while |rest| > 0
        invariant pendingLen == 0 && |stream| == |styles|
        invariant NotedText(View(), rest, finish) == NotedText(old(View()), buf, finish)
        decreases |rest|
      {
        NotedSteps(View(), rest, finish);
        if HasPrefix(rest, OPEN) {
          inThink := true;
          rest := rest[|OPEN|..];
        } else if HasPrefix(rest, CLOSE) {
          inThink := false;
          AppendVisible("\n");
          rest := rest[|CLOSE|..];
        } else if !finish && MayBeTag(rest) {
          if |rest| < PENDING_CAP {
            forall k | 0 <= k < |rest| {
              pending[k] := rest[k];
            }
            pendingLen := |rest|;
          }
          assert Pending() == rest;
          return;
        } else {
          AppendVisible([rest[0]]);
          rest := rest[1..];
        }
      }
      assert Pending() == "";
      NotedNothing(View(), finish);
    }

    /** A generation's pieces of text and its end: text and styles are those of one pass. */
    method RecordAll(pieces: seq<string>)
      requires Valid() && Pending() == ""
      modifies this, pending
      ensures Valid() && View() == NoteAll(old(View()), Scan(Join(pieces)))
    {
      hide Scan, ScanKnown, NoteAll, Join, Streamed;
      var i := 0;
      assert pieces[0..] == pieces;
      while i < |pieces|
        invariant 0 <= i <= |pieces| && Valid()
        invariant NoteAll(View(), Streamed(Pending(), pieces[i..])) == NoteAll(old(View()), Streamed("", pieces))
      {
        var r := ScanKnown(Pending() + pieces[i]);
        StreamedStep(Pending(), pieces[i..]);
        assert pieces[i..][1..] == pieces[i + 1..];
        NotesInSequence(View(), r.0, Streamed(r.1, pieces[i + 1..]));
        AppendTokenText(pieces[i], false);
        i := i + 1;
      }
      StreamedEnd(Pending(), pieces[i..]);
      assert Pending() + "" == Pending();
      AppendTokenText("", true);
      StreamedIsScan("", pieces);
      assert "" + Join(pieces) == Join(pieces);
    }
  }

  // ---------------------------------------------------------------- a thought and its answer

  predicate TagFree(s: string) {
    forall i :: 0 <= i < |s| ==> !HasPrefix(s[i..], OPEN) && !HasPrefix(s[i..], CLOSE)
  }

  function Letters(s: string): (es: seq<Event>)
    ensures |es| == |s|
  {
    seq(|s|, i requires 0 <= i < |s| => Visible(s[i]))
  }

  /** No tag begins inside a tag. */
  lemma NoOverlap(s: string, rest: string, tag: string)
    requires tag == OPEN || tag == CLOSE
    requires s != [] && !HasPrefix(s, tag) && (rest == [] || rest[0] == '<')
    ensures !HasPrefix(s + rest, tag)
  {
    var t := s + rest;
    assert forall k :: 1 <= k < |tag| ==> tag[k] != '<';
    if |s| < |tag| {
      assert |t| >= |tag| ==> t[..|tag|][|s|] == rest[0];
    } else {
      assert t[..|tag|] == s[..|tag|];
    }
  }

  lemma {:induction false} LettersAreVisible(s: string, rest: string)
    requires TagFree(s) && (rest == [] || rest[0] == '<')
    ensures Scan(s + rest) == Letters(s) + Scan(rest)
    decreases |s|
  {
    hide Scan, HasPrefix;
    if s == [] {
      assert s + rest == rest;
    } else {
      assert s[0..] == s;
      NoOverlap(s, rest, OPEN);
      NoOverlap(s, rest, CLOSE);
      FirstEvent(s + rest);
      assert (s + rest)[1..] == s[1..] + rest;
      assert forall i :: 0 <= i < |s[1..]| ==> s[1..][i..] == s[i + 1..];
      LettersAreVisible(s[1..], rest);
      assert Letters(s) == [Visible(s[0])] + Letters(s[1..]);
    }
  }

  /** What one pass makes of a thought and the answer behind it. */
  lemma ThoughtIsScanned(thought: string, answer: string)
    requires TagFree(thought) && TagFree(answer)
    ensures Scan(OPEN + (thought + (CLOSE + answer))) == [Opened] + (Letters(thought) + ([Closed] + Letters(answer)))
  {
    hide Scan, HasPrefix, TagFree;
    var u := CLOSE + answer;
    TagInFront(OPEN, thought + u);
    TagInFront(CLOSE, answer);
    FirstEvent(OPEN + (thought + u));
    FirstEvent(u);
    NotBoth(u);
    LettersAreVisible(thought, u);
    LettersAreVisible(answer, "");
    assert answer + "" == answer;
    NothingScanned();
    assert Letters(answer) + [] == Letters(answer);
  }

  lemma NothingScanned()
    ensures Scan("") == []
  {
  }

  lemma TagInFront(tag: string, rest: string)
    ensures HasPrefix(tag + rest, tag) && (tag + rest)[|tag|..] == rest
  {
  }

  lemma {:induction false} LettersNoted(v: Record, s: string)
    ensures NoteAll(v, Letters(s)) == Record(v.inThink, v.stream + s, v.styles + Styles(v.inThink, |s|))
    decreases |s|
  {
    if s == [] {
      assert v.stream + s == v.stream && v.styles + Styles(v.inThink, 0) == v.styles;
    } else {
      assert Letters(s)[1..] == Letters(s[1..]);
      LettersNoted(Note(v, Visible(s[0])), s[1..]);
      assert v.stream + [s[0]] + s[1..] == v.stream + s;
      assert v.styles + Styles(v.inThink, 1) + Styles(v.inThink, |s| - 1) == v.styles + Styles(v.inThink, |s|);
    }
  }

  /** The evaluator records a thought and its answer without their tags and a newline between them, in style 1 as far
      as the thought goes and in style 0 from there on. */
  lemma ThoughtIsRecorded(inThink: bool, thought: string, answer: string)
    requires TagFree(thought) && TagFree(answer)
    ensures var r := NoteAll(Record(inThink, "", []), Scan(OPEN + (thought + (CLOSE + answer))));
      && r.stream == thought + ("\n" + answer) && |r.styles| == |thought| + 1 + |answer|
      && forall i :: 0 <= i < |r.styles| ==> r.styles[i] == if i < |thought| then 1 else 0
  {
    hide NoteAll, Scan;
    ThoughtIsScanned(thought, answer);
    var start, a, b := Record(inThink, "", []), Letters(thought), Letters(answer);
    NotesInSequence(start, [Opened], a + ([Closed] + b));
    NotesOne(start, Opened);
    var inside := start.(inThink := true);
    NotesInSequence(inside, a, [Closed] + b);
    LettersNoted(inside, thought);
    var thoughtOf := NoteAll(inside, a);
    NotesInSequence(thoughtOf, [Closed], b);
    NotesOne(thoughtOf, Closed);
    LettersNoted(Note(thoughtOf, Closed), answer);
    assert thought + "\n" + answer == thought + ("\n" + answer) && "" + thought == thought;
  }

  lemma NotesOne(v: Record, e: Event)
    ensures NoteAll(v, [e]) == Note(v, e)
  {
    assert [e][1..] == [];
  }

  /** The printer at work on visible characters in one state of the colour. */
  lemma {:induction false} LettersShown(useColor: bool, v: Look, s: string)
    requires v.colorOpen == (useColor && v.inThink)
    ensures ShowAll(useColor, v, Letters(s))
      == v.(out := v.out + s, newline := if s == "" then v.newline else s[|s| - 1] == '\n')
    decreases |s|
  {
    if s == [] {
      assert v.out + s == v.out;
    } else {
      assert Letters(s)[1..] == Letters(s[1..]);
      LettersShown(useColor, Show(useColor, v, Visible(s[0])), s[1..]);
      assert v.out + [s[0]] + s[1..] == v.out + s;
    }
  }

  lemma ShowsOne(useColor: bool, v: Look, e: Event)
    ensures ShowAll(useColor, v, [e]) == Show(useColor, v, e)
  {
    assert [e][1..] == [];
  }

  /** A thought, in grey from its first character on. */
  lemma ThoughtIsGrey(useColor: bool, v: Look, s: string)
    requires v.inThink && !v.colorOpen && s != ""
    ensures ShowAll(useColor, v, Letters(s))
      == v.(out := v.out + ((if useColor then GREY else "") + s), colorOpen := useColor, newline := s[|s| - 1] == '\n')
  {
    hide ShowAll;
    var first := Show(useColor, v, Visible(s[0]));
    assert Letters(s) == [Visible(s[0])] + Letters(s[1..]);
    ShowsInSequence(useColor, v, [Visible(s[0])], Letters(s[1..]));
    ShowsOne(useColor, v, Visible(s[0]));
    LettersShown(useColor, first, s[1..]);
    assert v.out + ((if useColor then GREY else "") + s) == v.out + (if useColor then GREY else "") + [s[0]] + s[1..];
  }

  lemma ThoughtByParts(useColor: bool, inThink: bool, a: seq<Event>, b: seq<Event>)
    ensures ShowAll(useColor, Look(inThink, false, true, ""), [Opened] + (a + ([Closed] + b)))
         == ShowAll(useColor, Show(useColor, ShowAll(useColor, Look(true, false, true, ""), a), Closed), b)
  {
    hide ShowAll;
    var start, inside := Look(inThink, false, true, ""), Look(true, false, true, "");
    ShowsInSequence(useColor, start, [Opened], a + ([Closed] + b));
    ShowsOne(useColor, start, Opened);
    ShowsInSequence(useColor, inside, a, [Closed] + b);
    ShowsInSequence(useColor, ShowAll(useColor, inside, a), [Closed], b);
    ShowsOne(useColor, ShowAll(useColor, inside, a), Closed);
  }

  function Grey(useColor: bool, s: string): string {
    if useColor && s != "" then GREY + (s + RESET) else s
  }

  function LineBreak(s: string): string {
    if s == "" || s[|s| - 1] == '\n' then "" else "\n"
  }

  lemma ThoughtIsClosed(useColor: bool, thought: string)
    ensures Show(useColor, ShowAll(useColor, Look(true, false, true, ""), Letters(thought)), Closed)
         == Look(false, false, true, Grey(useColor, thought) + LineBreak(thought))
  {
    hide ShowAll;
    var inside := Look(true, false, true, "");
    if thought == "" {
      ShowsFirst(useColor, inside, Letters(thought));
    } else {
      ThoughtIsGrey(useColor, inside, thought);
      assert "" + (GREY + thought) + RESET == GREY + (thought + RESET) && "" + ("" + thought) == thought;
    }
  }

  /** The command line prints a thought in grey and the answer behind it in the usual colour, on a line of its own. */
  lemma ThoughtIsPrinted(useColor: bool, inThink: bool, thought: string, answer: string)
    requires TagFree(thought) && TagFree(answer)
    ensures var v := ShowAll(useColor, Look(inThink, false, true, ""), Scan(OPEN + (thought + (CLOSE + answer))));
      && !v.inThink && !v.colorOpen
      && v.out == (if useColor && thought != "" then GREY + (thought + RESET) else thought)
                + (if thought == "" || thought[|thought| - 1] == '\n' then "" else "\n") + answer
  {
    hide ShowAll, Scan, Show, TagFree;
    ThoughtIsScanned(thought, answer);
    ThoughtByParts(useColor, inThink, Letters(thought), Letters(answer));
    ThoughtIsClosed(useColor, thought);
    LettersShown(useColor, Look(false, false, true, Grey(useColor, thought) + LineBreak(thought)), answer);
  }
}
