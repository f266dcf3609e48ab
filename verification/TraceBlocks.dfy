/** The evaluation trace: counted blocks as they are printed, and the scanner that regrades a trace. */
module TraceBlocks {
  import opened Wire
  import opened TraceText

  const BEGIN: string := "_BEGIN bytes="
  const CASE: string := "===== CASE "
  const OUTPUT_BEGIN: string := "MODEL_OUTPUT_BEGIN"
  const OUTPUT_END: string := "MODEL_OUTPUT_END"
  const MAX_LABEL: nat := 96

  // ---------------------------------------------------------------- printing

  function Block(name: string, text: string): string {
    name + (BEGIN + (Decimal(|text|) + ("\n" + (text + (Break(text) + (name + "_END\n"))))))
  }

  /** The newline added behind a text that does not end with one. */
  function Break(text: string): string {
    if text != [] && text[|text| - 1] != '\n' then "\n" else ""
  }

  function Lines(ls: seq<string>): string {
    if ls == [] then [] else Line(ls[0]) + Lines(ls[1..])
  }

  /** A case of a trace: its header line, the lines of metadata, and its texts.  Older traces only delimit the model
      output, without a count. */
  datatype Case =
    | Counted(header: string, meta: seq<string>, system: string, question: string, output: string)
    | Delimited(header: string, meta: seq<string>, output: string)

  function Blocks(c: Case): string {
    match c
    case Counted(_, _, system, question, output) =>
      Block("SYSTEM_PROMPT", system) + (Block("QUESTION_PROMPT", question) + (Block("MODEL_OUTPUT", output) + "\n"))
    case Delimited(_, _, output) =>
      Line(OUTPUT_BEGIN) + (Line(output) + Line(OUTPUT_END))
  }

  function PrintCase(c: Case): string {
    Line(c.header) + (Lines(c.meta) + Blocks(c))
  }

  function PrintCases(cs: seq<Case>): string {
    if cs == [] then [] else PrintCase(cs[0]) + PrintCases(cs[1..])
  }

  function PrintTrace(preamble: seq<string>, cs: seq<Case>): string {
    Lines(preamble) + PrintCases(cs)
  }

  // ---------------------------------------------------------------- scanning

  /** Behind the text of a counted block: where the closing marker ends, on its own or after one newline. */
  function Marker(u: string, len: nat, marker: string): (r: Option<nat>)
    ensures r.Some? ==> len <= r.value <= |u|
  {
    if len > |u| then None
    else
      var at := if len < |u| && u[len] == '\n' then len + 1 else len;
      if StartsWith(u[at..], marker) then Some(at + |marker|) else None
  }

  /** Skips a counted block at the front, if there is a well-formed one. */
  function SkipBlock(s: string): (r: Option<nat>)
    ensures r.Some? ==> 0 < r.value <= |s|
  {
    var le, content := LineLen(s), NextLine(s);
    var begin := Find(s[..le], BEGIN);
    if begin.None? || begin.value == 0 || begin.value > MAX_LABEL then None
    else
      var at := begin.value + |BEGIN|;
      var (declared, n) := Strtoull(s[at..]);
      if n == 0 || at + n > le then None
      else
        var close := Marker(s[content..], declared, s[..begin.value] + "_END");
        if close.None? then None else Some(content + close.value + NextLine(s[content..][close.value..]))
  }

  function Shift(r: Option<nat>, offset: nat): Option<nat> {
    if r.None? then None else Some(r.value + offset)
  }

  /** Where the next case header is. */
  function NextCase(s: string): (r: Option<nat>)
    ensures r.Some? ==> r.value < |s|
  {
    if s == [] then None
    else
      var skip := SkipBlock(s);
      if skip.Some? then Shift(NextCase(s[skip.value..]), skip.value)
      else if StartsWith(s[..LineLen(s)], CASE) then Some(0)
      else Shift(NextCase(s[NextLine(s)..]), NextLine(s))
  }

  /** Where the next line that starts with a name is, outside of the counted blocks before it. */
  function BlockBegin(s: string, name: string): (r: Option<nat>)
    ensures r.Some? ==> r.value < |s|
  {
    if s == [] then None
    else if StartsWith(s[..LineLen(s)], name) then Some(0)
    else
      var skip := SkipBlock(s);
      if skip.Some? then Shift(BlockBegin(s[skip.value..], name), skip.value)
      else Shift(BlockBegin(s[NextLine(s)..], name), NextLine(s))
  }

  /** The model output of a case: counted, or up to the end marker in older traces. */
  function CopyOutput(s: string): Option<string> {
    var begin := BlockBegin(s, OUTPUT_BEGIN);
    if begin.None? then None
    else OutputAt(s[begin.value..])
  }

  function OutputAt(u: string): Option<string> {
    var le := LineLen(u);
    if le == |u| then None
    else
      var content := le + 1;
      var bytes := Find(u[..le], "bytes=");
      if bytes.Some? then
        var at := bytes.value + 6;
        var (declared, n) := Strtoull(u[at..]);
        if n == 0 || at + n > le || Marker(u[content..], declared, OUTPUT_END).None? then None
        else Some(u[content..][..declared])
      else
        var finish := Find(u[content..], "\n" + OUTPUT_END);
        if finish.None? then None else Some(u[content..][..finish.value])
  }

  /** The first line that starts with a key, without the key. */
  function LineField(s: string, key: string): Option<string> {
    if s == [] then None
    else if StartsWith(s[..LineLen(s)], key) then Some(s[|key|..LineLen(s)])
    else LineField(s[NextLine(s)..], key)
  }

  // The buffers that the fields of a case are copied into.
  const SOURCE_SIZE: nat := 64
  const ID_SIZE: nat := 128
  const STATUS_SIZE: nat := 32
  const PICKED_SIZE: nat := 256

  predicate LineEnd(c: char) {
    c == '\r' || c == '\n'
  }

  /** Without the line ends at its end. */
  function Trimmed(s: string): (r: string)
    ensures |r| <= |s| && (r == s <==> s == [] || !LineEnd(s[|s| - 1]))
  {
    if s != [] && LineEnd(s[|s| - 1]) then Trimmed(s[..|s| - 1]) else s
  }

  /** What a buffer holds after a span was copied into it: trimmed, and clipped to leave room for the final NUL. */
  function Copied(s: string, size: nat): (r: string)
    requires size > 0
    ensures |r| < size
    ensures r == s <==> |s| < size && (s == [] || !LineEnd(s[|s| - 1]))
  {
    var t := Trimmed(s);
    if |t| >= size then t[..size - 1] else t
  }

  /** The buffer holds as much of the span in front of its line ends as there is room for. */
  lemma CopiedIs(t: string, ends: string, size: nat)
    requires size > 0 && (t == [] || (t[|t| - 1] != '\r' && t[|t| - 1] != '\n'))
    requires forall i :: 0 <= i < |ends| ==> ends[i] == '\r' || ends[i] == '\n'
    ensures Copied(t + ends, size) == if |t| < size then t else t[..size - 1]
  {
    TrimmedIs(t, ends);
  }

  lemma {:induction false} TrimmedIs(t: string, ends: string)
    requires t == [] || !LineEnd(t[|t| - 1])
    requires forall i :: 0 <= i < |ends| ==> LineEnd(ends[i])
    ensures Trimmed(t + ends) == t
  {
    if ends == [] {
      assert t + ends == t;
    } else {
      var n := |ends| - 1;
      assert (t + ends)[..|t| + n] == t + ends[..n];
      TrimmedIs(t, ends[..n]);
    }
  }

  function CopiedField(field: Option<string>, size: nat): Option<string>
    requires size > 0
  {
    if field.None? then None else Some(Copied(field.value, size))
  }

  method CopySpan(span: string, size: nat) returns (dst: string)
    requires size > 0
    ensures dst == Copied(span, size)
  {
    var end := |span|;
    assert span[..end] == span;
    while end > 0 && LineEnd(span[end - 1])
      invariant 0 <= end <= |span| && Trimmed(span[..end]) == Trimmed(span)
    {
      end := end - 1;
      assert span[..end + 1][..end] == span[..end];
    }
    assert Trimmed(span) == span[..end];
    var n := end;
    if n >= size {
      n := size - 1;
    }
    dst := span[..n];
  }

  /** The value of the first line with a key, as it ends up in its buffer. */
  method GetLineField(s: string, key: string, size: nat) returns (dst: Option<string>)
    requires size > 0
    ensures dst == CopiedField(LineField(s, key), size)
  {
    hide LineLen, NextLine, StartsWith;
    var p := s;
    while p != []
      invariant LineField(p, key) == LineField(s, key)
      decreases |p|
    {
      var end := LineLen(p);
      if StartsWith(p[..end], key) {
        KeyFits(p[..end], key);
        var value := CopySpan(p[|key|..end], size);
        return Some(value);
      }
      p := p[NextLine(p)..];
    }
    dst := None;
  }

  /** What regrading extracts from one case. */
  datatype Found = Found(source: Option<string>, id: Option<string>, status: Option<string>, picked: Option<string>,
                         output: Option<string>)

  function FoundIn(s: string): Found {
    Found(CopiedField(LineField(s, "source: "), SOURCE_SIZE), CopiedField(LineField(s, "id: "), ID_SIZE),
          CopiedField(LineField(s, "status: "), STATUS_SIZE),
          CopiedField(LineField(s, "picked: "), PICKED_SIZE), CopyOutput(s))
  }

  /** Where the case that starts at the front ends. */
  function CaseEnd(t: string): (n: nat)
    requires t != []
    ensures 0 < n <= |t|
  {
    var next := NextCase(t[NextLine(t)..]);
    if next.None? then |t| else NextLine(t) + next.value
  }

  /** All cases of a trace, in order. */
  function Regraded(s: string): seq<Found>
    decreases |s|
  {
    var first := NextCase(s);
    if first.None? then []
    else
      var t := s[first.value..];
      [FoundIn(t[..CaseEnd(t)])] + Regraded(t[CaseEnd(t)..])
  }

  // ---------------------------------------------------------------- the scanning loops

  method FindNextCase(s: string) returns (r: Option<nat>)
    ensures r == NextCase(s)
  {
    hide SkipBlock, StartsWith, LineLen;
    var rest, p := s, 0;
    while |rest| > 0
      invariant NextCase(s) == Shift(NextCase(rest), p)
      decreases |rest|
    {
      var skip := SkipBlock(rest);
      if skip.None? && StartsWith(rest[..LineLen(rest)], CASE) {
        return Some(p);
      }
      var step := if skip.Some? then skip.value else NextLine(rest);
      rest, p := rest[step..], p + step;
    }
    r := None;
  }

  method FindBlockBegin(s: string, name: string) returns (r: Option<nat>)
    ensures r == BlockBegin(s, name)
  {
    hide SkipBlock, StartsWith, LineLen;
    var rest, p := s, 0;
    while |rest| > 0
      invariant BlockBegin(s, name) == Shift(BlockBegin(rest, name), p)
      decreases |rest|
    {
      if StartsWith(rest[..LineLen(rest)], name) {
        return Some(p);
      }
      var skip := SkipBlock(rest);
      var step := if skip.Some? then skip.value else NextLine(rest);
      rest, p := rest[step..], p + step;
    }
    r := None;
  }

  method RegradeTrace(s: string) returns (found: seq<Found>)
    ensures found == Regraded(s)
  {
    hide NextCase, NextLine, LineField, CopyOutput, Copied;
    found := [];
    var rest := s;
    while true
      invariant found + Regraded(rest) == Regraded(s)
      decreases |rest|
    {
      var first := FindNextCase(rest);
      if first.None? {
        return;
      }
      var t := rest[first.value..];
      var next := FindNextCase(t[NextLine(t)..]);
      var end := if next.None? then |t| else NextLine(t) + next.value;
      var source := GetLineField(t[..end], "source: ", SOURCE_SIZE);
      var id := GetLineField(t[..end], "id: ", ID_SIZE);
      var status := GetLineField(t[..end], "status: ", STATUS_SIZE);
      var picked := GetLineField(t[..end], "picked: ", PICKED_SIZE);
      found := found + [Found(source, id, status, picked, CopyOutput(t[..end]))];
      rest := t[end..];
    }
  }

  // ---------------------------------------------------------------- scanning what was printed

  /** A metadata line that cannot be mistaken for anything else. */
  predicate PlainLine(l: string) {
    && '\n' !in l
    && Find(l, BEGIN).None?
    && !StartsWith(l, CASE)
    && !StartsWith(l, OUTPUT_BEGIN)
  }

  predicate HeaderLine(l: string) {
    '\n' !in l && Find(l, BEGIN).None? && StartsWith(l, CASE)
  }

  /** A name whose underscores are never followed by the B of BEGIN. */
  predicate ClearName(name: string) {
    && '\n' !in name
    && forall i :: 0 <= i < |name| && name[i] == '_' ==> i + 1 < |name| && name[i + 1] != 'B'
  }

  /** A block name: such a name of 1 to 96 characters. */
  predicate PlainName(name: string) {
    1 <= |name| <= 96 && ClearName(name)
  }

  lemma LineIsNoBlock(l: string, rest: string)
    requires '\n' !in l && Find(l, BEGIN).None?
    ensures SkipBlock(Line(l) + rest).None?
  {
    FirstLine(l, rest);
  }

  lemma Differs(s: string, p: string, k: nat)
    requires k < |s| && k < |p| && s[k] != p[k]
    ensures !StartsWith(s, p)
  {
    assert |s| >= |p| ==> s[..|p|][k] == s[k];
  }

  /** The first line of a printed block, taken apart. */
  function BeginLine(name: string, len: nat): string {
    name + (BEGIN + Decimal(len))
  }

  lemma BeginIsFound(name: string, len: nat)
    requires ClearName(name)
    ensures Find(BeginLine(name, len), BEGIN) == Some(|name|)
    ensures '\n' !in BeginLine(name, len)
  {
    var l := BeginLine(name, len);
    assert l[|name|..] == BEGIN + Decimal(len);
    assert (BEGIN + Decimal(len))[..|BEGIN|] == BEGIN;
    forall i | 0 <= i < |name| ensures !StartsWith(l[i..], BEGIN) {
      Differs(l[i..], BEGIN, if name[i] == '_' then 1 else 0);
    }
    FoundAt(l, BEGIN, |name|);
    assert forall i :: 0 <= i < |Decimal(len)| ==> IsDigit(Decimal(len)[i]);
  }

  /** The closing marker of a printed block, whatever the text before it looks like. */
  lemma MarkerIsFound(text: string, m: string, rest: string)
    requires m != [] && m[0] != '\n'
    ensures Marker(text + (Break(text) + (m + rest)), |text|, m) == Some(|text| + |Break(text)| + |m|)
  {
    var u := text + (Break(text) + (m + rest));
    var at := |text| + |Break(text)|;
    assert u[at..] == m + rest;
    assert (m + rest)[..|m|] == m;
    if Break(text) == "" {
      assert u[|text|] == m[0];
    } else {
      assert u[|text|] == '\n';
    }
  }

  /** A printed block in front of anything else. */
  lemma BlockParts(name: string, text: string, rest: string)
    ensures Block(name, text) + rest
         == Line(BeginLine(name, |text|)) + (text + (Break(text) + ((name + "_END") + ("\n" + rest))))
  {
    var tail := "\n" + rest;
    assert Line(BeginLine(name, |text|)) == name + (BEGIN + (Decimal(|text|) + "\n"));
    assert (name + "_END\n") + rest == (name + "_END") + tail;
  }

  /** Whatever a printed block contains, fake headers and markers included, it is skipped as a whole. */
  lemma BlockIsSkipped(name: string, text: string, rest: string)
    requires PlainName(name) && |text| < TWO64
    ensures SkipBlock(Block(name, text) + rest) == Some(|Block(name, text)|)
  {
    hide Find, Strtoull, LineLen, Marker, StartsWith, NextLine, Block, Break, Decimal, PlainName, ClearName;
    var l, m, tail := BeginLine(name, |text|), name + "_END", "\n" + rest;
    var body := text + (Break(text) + (m + tail));
    var s := Block(name, text) + rest;
    NameFits(name);
    BlockParts(name, text, rest);
    BeginIsFound(name, |text|);
    FirstLine(l, body);
    AfterBegin(name, |text|, body);
    MarkerIsFound(text, m, tail);
    FirstLine("", rest);
    assert Line("") + rest == tail;
    var close := |text| + |Break(text)| + |m|;
    assert body[close..] == tail;
    assert s[..|name|] == name;
    BlockLength(name, text);
  }

  lemma NameFits(name: string)
    requires PlainName(name)
    ensures 1 <= |name| <= 96 && name[0] != '\n' && ClearName(name)
  {
  }

  /** A block whose name is empty or too long is not recognised. */
  lemma OtherNamesAreNoBlock(name: string, text: string, rest: string)
    requires ClearName(name) && (name == "" || |name| > 96)
    ensures SkipBlock(Block(name, text) + rest).None?
  {
    hide Find, Strtoull, LineLen, Marker, StartsWith, NextLine, Block, Break, Decimal, ClearName;
    var body := text + (Break(text) + ((name + "_END") + ("\n" + rest)));
    BlockParts(name, text, rest);
    BeginIsFound(name, |text|);
    FirstLine(BeginLine(name, |text|), body);
  }

  lemma BlockLength(name: string, text: string)
    ensures |Block(name, text)| == |BeginLine(name, |text|)| + 1 + |text| + |Break(text)| + |name| + 5
  {
  }

  /** The byte count of a printed block is read back. */
  lemma AfterBegin(name: string, len: nat, body: string)
    requires len < TWO64
    ensures var s, at := Line(BeginLine(name, len)) + body, |name| + |BEGIN|;
      at <= |s| && Strtoull(s[at..]) == (len, |Decimal(len)|) && s[..|name|] == name
  {
    hide Strtoull, Decimal;
    var s, at := Line(BeginLine(name, len)) + body, |name| + |BEGIN|;
    assert s[at..] == Decimal(len) + ("\n" + body);
    ReadsDecimal(len, "\n" + body);
  }

  // ---------------------------------------------------------------- finding the cases

  predicate PlainLines(ls: seq<string>) {
    forall i :: 0 <= i < |ls| ==> PlainLine(ls[i])
  }

  /** A text that could not be mistaken for the start of a case, nor for a counted block. */
  predicate Quiet(text: string) {
    Find(text, BEGIN).None? && !StartsWith(text, CASE) && Find(text, "\n" + CASE).None?
  }

  /** A text without the line that would end it. */
  predicate Unmarked(text: string) {
    Find(text, "\n" + OUTPUT_END).None?
  }

  /** A case whose own lines are well formed; texts behind a count may be anything. */
  predicate CaseOk(c: Case) {
    && HeaderLine(c.header) && PlainLines(c.meta)
    && match c
       case Counted(_, _, system, question, output) => |system| < TWO64 && |question| < TWO64 && |output| < TWO64
       case Delimited(_, _, output) => Quiet(output) && Unmarked(output)
  }

  lemma LineIsNoCase(l: string, rest: string)
    requires '\n' !in l && Find(l, BEGIN).None? && !StartsWith(l, CASE)
    ensures NextCase(Line(l) + rest) == Shift(NextCase(rest), |l| + 1)
  {
    hide SkipBlock, StartsWith, LineLen, NextLine, Find;
    FirstLine(l, rest);
    LineIsNoBlock(l, rest);
  }

  lemma {:induction false} LinesAreNoCase(ls: seq<string>, rest: string)
    requires PlainLines(ls)
    ensures NextCase(Lines(ls) + rest) == Shift(NextCase(rest), |Lines(ls)|)
  {
    hide NextCase, Find, StartsWith;
    if ls == [] {
      assert [] + rest == rest;
    } else {
      assert PlainLine(ls[0]);
      LineIsNoCase(ls[0], Lines(ls[1..]) + rest);
      LinesAreNoCase(ls[1..], rest);
      assert Lines(ls) + rest == Line(ls[0]) + (Lines(ls[1..]) + rest);
    }
  }

  lemma BlockIsNoCase(name: string, text: string, rest: string)
    requires PlainName(name) && |text| < TWO64
    ensures NextCase(Block(name, text) + rest) == Shift(NextCase(rest), |Block(name, text)|)
  {
    hide SkipBlock, Block, StartsWith, LineLen, NextLine;
    BlockIsSkipped(name, text, rest);
    assert (Block(name, text) + rest)[|Block(name, text)|..] == rest;
  }

  lemma NamesArePlain()
    ensures PlainName("SYSTEM_PROMPT") && PlainName("QUESTION_PROMPT") && PlainName("MODEL_OUTPUT")
  {
  }

  lemma EmptyLineIsPlain()
    ensures PlainLine("")
  {
  }

  lemma CountedAreNoCase(c: Case, rest: string)
    requires c.Counted? && |c.system| < TWO64 && |c.question| < TWO64 && |c.output| < TWO64
    ensures NextCase(Blocks(c) + rest) == Shift(NextCase(rest), |Blocks(c)|)
  {
    hide NextCase, Block, PlainName, Find, StartsWith;
    NamesArePlain();
    EmptyLineIsPlain();
    var s, q, o := Block("SYSTEM_PROMPT", c.system), Block("QUESTION_PROMPT", c.question),
      Block("MODEL_OUTPUT", c.output);
    BlockIsNoCase("SYSTEM_PROMPT", c.system, q + (o + ("\n" + rest)));
    BlockIsNoCase("QUESTION_PROMPT", c.question, o + ("\n" + rest));
    BlockIsNoCase("MODEL_OUTPUT", c.output, "\n" + rest);
    LineIsNoCase("", rest);
    assert Line("") + rest == "\n" + rest;
    assert s + (q + (o + "\n")) + rest == s + (q + (o + ("\n" + rest)));
  }

  /** Substrings of a text without the needle. */
  lemma {:induction false} FoundNowhere(hay: string, needle: string, k: nat)
    requires Find(hay, needle).None? && k <= |hay|
    ensures Find(hay[k..], needle).None? && !StartsWith(hay[k..], needle)
  {
    assert hay[0..] == hay;
    if k > 0 {
      assert hay[1..][k - 1..] == hay[k..];
      FoundNowhere(hay[1..], needle, k - 1);
    }
  }

  lemma {:induction false} NowhereFound(hay: string, needle: string)
    requires forall i :: 0 <= i <= |hay| ==> !StartsWith(hay[i..], needle)
    ensures Find(hay, needle).None?
  {
    assert hay[0..] == hay;
    if hay != [] {
      assert forall i :: 0 <= i <= |hay[1..]| ==> hay[1..][i..] == hay[i + 1..];
      NowhereFound(hay[1..], needle);
    }
  }

  lemma NotInFront(hay: string, needle: string, n: nat)
    requires Find(hay, needle).None? && n <= |hay|
    ensures Find(hay[..n], needle).None?
  {
    forall i | 0 <= i <= n ensures !StartsWith(hay[..n][i..], needle) {
      FoundNowhere(hay, needle, i);
      assert |hay[..n][i..]| >= |needle| ==> hay[..n][i..][..|needle|] == hay[i..][..|needle|];
    }
    NowhereFound(hay[..n], needle);
  }

  lemma StartsNotInFront(s: string, p: string, n: nat)
    requires !StartsWith(s, p) && n <= |s|
    ensures !StartsWith(s[..n], p)
  {
    assert n >= |p| ==> s[..n][..|p|] == s[..|p|];
  }

  /** Every line of a quiet text is quiet, and so is what comes behind a line. */
  lemma QuietLines(text: string, n: nat)
    requires Quiet(text) && n <= |text|
    ensures Find(text[..n], BEGIN).None? && !StartsWith(text[..n], CASE)
    ensures n < |text| && text[n] == '\n' ==> Quiet(text[n + 1..])
  {
    hide Find, StartsWith;
    NotInFront(text, BEGIN, n);
    StartsNotInFront(text, CASE, n);
    if n < |text| && text[n] == '\n' {
      FoundNowhere(text, BEGIN, n + 1);
      FoundNowhere(text, "\n" + CASE, n + 1);
      FoundNowhere(text, "\n" + CASE, n);
      BehindBreak(text[n..], text[n + 1..], CASE);
    }
  }

  lemma BehindBreak(s: string, t: string, p: string)
    requires s == "\n" + t && !StartsWith(s, "\n" + p)
    ensures !StartsWith(t, p)
  {
    assert |t| >= |p| ==> s[..1 + |p|] == "\n" + t[..|p|];
  }

  lemma {:induction false} QuietIsNoCase(text: string, rest: string)
    requires Quiet(text)
    ensures NextCase(Line(text) + rest) == Shift(NextCase(rest), |text| + 1)
    decreases |text|
  {
    hide NextCase, Quiet, LineLen, Find, StartsWith;
    var n := LineLen(text);
    QuietLines(text, n);
    if n == |text| {
      assert text[..n] == text;
      LineIsNoCase(text, rest);
    } else {
      var after := text[n + 1..];
      QuietIsNoCase(after, rest);
      LineIsNoCase(text[..n], Line(after) + rest);
      assert Line(text) + rest == Line(text[..n]) + (Line(after) + rest);
    }
  }

  lemma DelimitersAreQuiet()
    ensures Find(OUTPUT_BEGIN, BEGIN).None? && Find(OUTPUT_END, BEGIN).None?
    ensures !StartsWith(OUTPUT_BEGIN, CASE) && !StartsWith(OUTPUT_END, CASE)
    ensures '\n' !in OUTPUT_BEGIN && '\n' !in OUTPUT_END
  {
    hide Find, StartsWith;
    BeginIsQuiet();
    EndIsQuiet();
    Differs(OUTPUT_BEGIN, CASE, 0);
    Differs(OUTPUT_END, CASE, 0);
  }

  lemma BeginIsQuiet()
    ensures Find(OUTPUT_BEGIN, BEGIN).None?
  {
    hide Find;
    forall i | 0 <= i <= 18 ensures !StartsWith(OUTPUT_BEGIN[i..], BEGIN) {
      if i <= 5 { Differs(OUTPUT_BEGIN[i..], BEGIN, if i == 5 then 1 else 0); }
    }
    NowhereFound(OUTPUT_BEGIN, BEGIN);
  }

  lemma EndIsQuiet()
    ensures Find(OUTPUT_END, BEGIN).None?
  {
    hide Find;
    forall i | 0 <= i <= 16 ensures !StartsWith(OUTPUT_END[i..], BEGIN) {
      if i <= 3 { Differs(OUTPUT_END[i..], BEGIN, 0); }
    }
    NowhereFound(OUTPUT_END, BEGIN);
  }

  lemma DelimitedAreNoCase(c: Case, rest: string)
    requires c.Delimited? && Quiet(c.output)
    ensures NextCase(Blocks(c) + rest) == Shift(NextCase(rest), |Blocks(c)|)
  {
    hide NextCase, Quiet, Find, StartsWith;
    DelimitersAreQuiet();
    LineIsNoCase(OUTPUT_BEGIN, Line(c.output) + (Line(OUTPUT_END) + rest));
    QuietIsNoCase(c.output, Line(OUTPUT_END) + rest);
    LineIsNoCase(OUTPUT_END, rest);
    assert Blocks(c) + rest == Line(OUTPUT_BEGIN) + (Line(c.output) + (Line(OUTPUT_END) + rest));
  }

  lemma BlocksAreNoCase(c: Case, rest: string)
    requires CaseOk(c)
    ensures NextCase(Blocks(c) + rest) == Shift(NextCase(rest), |Blocks(c)|)
  {
    hide NextCase, Blocks, Quiet, Unmarked, PlainLine, HeaderLine;
    match c
    case Counted(_, _, _, _, _) => CountedAreNoCase(c, rest);
    case Delimited(_, _, _) => DelimitedAreNoCase(c, rest);
  }

  lemma HeaderIsCase(l: string, rest: string)
    requires HeaderLine(l)
    ensures NextCase(Line(l) + rest) == Some(0) && NextLine(Line(l) + rest) == |l| + 1
    ensures (Line(l) + rest)[|l| + 1..] == rest
  {
    hide SkipBlock, StartsWith, LineLen, NextLine, Find;
    FirstLine(l, rest);
    LineIsNoBlock(l, rest);
  }

  /** A printed case starts with its header and reaches exactly to the next one, or to the end. */
  lemma CaseIsDelimited(c: Case, rest: string)
    requires CaseOk(c) && (rest == [] || NextCase(rest) == Some(0))
    ensures NextCase(PrintCase(c) + rest) == Some(0)
    ensures CaseEnd(PrintCase(c) + rest) == |PrintCase(c)|
  {
    hide NextCase, NextLine, PlainLine, HeaderLine, Blocks, Lines;
    var t := PrintCase(c) + rest;
    assert t == Line(c.header) + (Lines(c.meta) + (Blocks(c) + rest));
    HeaderIsCase(c.header, Lines(c.meta) + (Blocks(c) + rest));
    LinesAreNoCase(c.meta, Blocks(c) + rest);
    BlocksAreNoCase(c, rest);
    if rest == [] { NoCaseAtEnd(); }
  }

  lemma NoCaseAtEnd()
    ensures NextCase("").None?
  {
  }

  lemma {:induction false} RegradesCases(cs: seq<Case>)
    requires forall i :: 0 <= i < |cs| ==> CaseOk(cs[i])
    ensures |Regraded(PrintCases(cs))| == |cs|
    ensures forall i :: 0 <= i < |cs| ==> Regraded(PrintCases(cs))[i] == FoundIn(PrintCase(cs[i]))
    ensures cs != [] ==> NextCase(PrintCases(cs)) == Some(0)
  {
    hide NextCase, FoundIn, PrintCase, CaseOk, CaseEnd;
    if cs == [] {
      NoCaseAtEnd();
    } else {
      var rest := PrintCases(cs[1..]);
      RegradesCases(cs[1..]);
      if cs[1..] == [] { assert rest == ""; }
      CaseIsDelimited(cs[0], rest);
      var t := PrintCases(cs);
      assert t == PrintCase(cs[0]) + rest && t[0..] == t;
      assert t[..|PrintCase(cs[0])|] == PrintCase(cs[0]) && t[|PrintCase(cs[0])|..] == rest;
    }
  }

  // ---------------------------------------------------------------- finding the model output

  lemma LineIsNoOutput(l: string, rest: string)
    requires '\n' !in l && Find(l, BEGIN).None? && !StartsWith(l, OUTPUT_BEGIN)
    ensures BlockBegin(Line(l) + rest, OUTPUT_BEGIN) == Shift(BlockBegin(rest, OUTPUT_BEGIN), |l| + 1)
  {
    hide SkipBlock, StartsWith, LineLen, NextLine, Find;
    FirstLine(l, rest);
    LineIsNoBlock(l, rest);
  }

  lemma {:induction false} LinesAreNoOutput(ls: seq<string>, rest: string)
    requires PlainLines(ls)
    ensures BlockBegin(Lines(ls) + rest, OUTPUT_BEGIN) == Shift(BlockBegin(rest, OUTPUT_BEGIN), |Lines(ls)|)
  {
    hide BlockBegin, StartsWith, Find;
    if ls == [] {
      assert [] + rest == rest;
    } else {
      assert PlainLine(ls[0]);
      LineIsNoOutput(ls[0], Lines(ls[1..]) + rest);
      LinesAreNoOutput(ls[1..], rest);
      assert Lines(ls) + rest == Line(ls[0]) + (Lines(ls[1..]) + rest);
    }
  }

  lemma OtherBlockIsNoOutput(name: string, text: string, rest: string)
    requires PlainName(name) && |text| < TWO64 && name[0] != 'M'
    ensures BlockBegin(Block(name, text) + rest, OUTPUT_BEGIN)
      == Shift(BlockBegin(rest, OUTPUT_BEGIN), |Block(name, text)|)
  {
    hide SkipBlock, Block, StartsWith, LineLen, NextLine;
    BlockIsSkipped(name, text, rest);
    var s, l := Block(name, text) + rest, BeginLine(name, |text|);
    var body := text + (Break(text) + ((name + "_END") + ("\n" + rest)));
    BlockParts(name, text, rest);
    BeginIsFound(name, |text|);
    FirstLine(l, body);
    Differs(l, OUTPUT_BEGIN, 0);
    assert s[|Block(name, text)|..] == rest;
  }

  lemma OutputBlockBegins(text: string, rest: string)
    ensures BlockBegin(Block("MODEL_OUTPUT", text) + rest, OUTPUT_BEGIN) == Some(0)
  {
    hide SkipBlock, Block, LineLen, NextLine, StartsWith, Break, Decimal;
    NamesArePlain();
    var s, l := Block("MODEL_OUTPUT", text) + rest, BeginLine("MODEL_OUTPUT", |text|);
    var body := text + (Break(text) + (("MODEL_OUTPUT" + "_END") + ("\n" + rest)));
    BlockParts("MODEL_OUTPUT", text, rest);
    BeginIsFound("MODEL_OUTPUT", |text|);
    FirstLine(l, body);
    OutputLineStarts(|text|);
    assert s != [];
  }

  lemma OutputLineStarts(len: nat)
    ensures StartsWith(BeginLine("MODEL_OUTPUT", len), OUTPUT_BEGIN)
  {
    hide Decimal;
    assert BeginLine("MODEL_OUTPUT", len)[..18] == OUTPUT_BEGIN;
  }

  /** The counted output is copied byte for byte. */
  lemma OutputIsCopied(text: string, rest: string)
    requires |text| < TWO64
    ensures OutputAt(Block("MODEL_OUTPUT", text) + rest) == Some(text)
  {
    hide Strtoull, LineLen, Marker, StartsWith, NextLine, Block, Break, Find, Decimal;
    NamesArePlain();
    var l, m, tail := BeginLine("MODEL_OUTPUT", |text|), OUTPUT_END, "\n" + rest;
    var body := text + (Break(text) + (m + tail));
    var u := Block("MODEL_OUTPUT", text) + rest;
    BlockParts("MODEL_OUTPUT", text, rest);
    assert "MODEL_OUTPUT" + "_END" == OUTPUT_END;
    BeginIsFound("MODEL_OUTPUT", |text|);
    FirstLine(l, body);
    BytesIsFound(|text|);
    AfterBegin("MODEL_OUTPUT", |text|, body);
    MarkerIsFound(text, m, tail);
    assert body[..|text|] == text;
    assert |l| == 25 + |Decimal(|text|)|;
  }

  lemma BytesIsFound(len: nat)
    ensures Find(BeginLine("MODEL_OUTPUT", len), "bytes=") == Some(19)
  {
    hide Decimal;
    var l := BeginLine("MODEL_OUTPUT", len);
    assert l[19..] == "bytes=" + Decimal(len);
    assert ("bytes=" + Decimal(len))[..6] == "bytes=";
    assert l[..19] == "MODEL_OUTPUT_BEGIN ";
    forall i | 0 <= i < 19 ensures !StartsWith(l[i..], "bytes=") {
      assert l[i] == l[..19][i];
      Differs(l[i..], "bytes=", 0);
    }
    FoundAt(l, "bytes=", 19);
  }

  /** The counted model output is recovered exactly, whatever any of the texts contain. */
  lemma CountedRoundTrip(c: Case)
    requires CaseOk(c) && c.Counted?
    ensures CopyOutput(PrintCase(c)) == Some(c.output)
  {
    hide BlockBegin, OutputAt, Block, StartsWith, Find, Lines, PlainName, PlainLines;
    NamesArePlain();
    var s, q, o := Block("SYSTEM_PROMPT", c.system), Block("QUESTION_PROMPT", c.question),
      Block("MODEL_OUTPUT", c.output);
    HeaderStart(c.header);
    Differs(c.header, OUTPUT_BEGIN, 0);
    LineIsNoOutput(c.header, Lines(c.meta) + Blocks(c));
    LinesAreNoOutput(c.meta, Blocks(c));
    OtherBlockIsNoOutput("SYSTEM_PROMPT", c.system, q + (o + "\n"));
    OtherBlockIsNoOutput("QUESTION_PROMPT", c.question, o + "\n");
    OutputBlockBegins(c.output, "\n");
    OutputIsCopied(c.output, "\n");
    var before := Line(c.header) + (Lines(c.meta) + (s + q));
    assert PrintCase(c) == before + (o + "\n");
    assert PrintCase(c)[|before|..] == o + "\n";
  }

  /** Where a text is cut that ends before a line with the end marker. */
  function CutAt(text: string): (n: nat)
    ensures n <= |text| && (n == |text| <==> Unmarked(text))
  {
    match Find(text, "\n" + OUTPUT_END)
    case None => |text|
    case Some(k) => k
  }

  lemma {:induction false} FoundFirst(hay: string, needle: string)
    requires Find(hay, needle).Some?
    ensures StartsWith(hay[Find(hay, needle).value..], needle)
    ensures forall i :: 0 <= i < Find(hay, needle).value ==> !StartsWith(hay[i..], needle)
  {
    assert hay[0..] == hay;
    if !StartsWith(hay, needle) {
      FoundFirst(hay[1..], needle);
      forall i | 0 <= i < Find(hay, needle).value ensures !StartsWith(hay[i..], needle) {
        if i > 0 { assert hay[1..][i - 1..] == hay[i..]; }
      }
    }
  }

  /** The end marker cannot straddle a line end. */
  lemma MarkerStaysInLine(text: string, rest: string, i: nat)
    requires i < |text| && StartsWith((text + ("\n" + rest))[i..], "\n" + OUTPUT_END)
    ensures StartsWith(text[i..], "\n" + OUTPUT_END)
  {
    var s, m := text + ("\n" + rest), "\n" + OUTPUT_END;
    assert |m| == 17 && s[|text|] == '\n';
    if i + 17 > |text| {
      assert s[i..][..17][|text| - i] == s[|text|];
      assert forall k :: 1 <= k < 17 ==> m[k] != '\n';
    } else {
      assert s[i..][..17] == text[i..][..17];
    }
  }

  lemma MarkerBefore(text: string, rest: string, i: nat)
    requires i < |text| && StartsWith(text[i..], "\n" + OUTPUT_END)
    ensures StartsWith((text + rest)[i..], "\n" + OUTPUT_END)
  {
    assert (text + rest)[i..][..17] == text[i..][..17];
  }

  /** The first end marker behind a delimited text. */
  lemma EndIsFound(text: string, rest: string)
    ensures Find(text + ("\n" + (OUTPUT_END + rest)), "\n" + OUTPUT_END) == Some(CutAt(text))
  {
    hide Find, StartsWith;
    var s, m, n := text + ("\n" + (OUTPUT_END + rest)), "\n" + OUTPUT_END, CutAt(text);
    forall i | 0 <= i < n ensures !StartsWith(s[i..], m) {
      if StartsWith(s[i..], m) {
        MarkerStaysInLine(text, OUTPUT_END + rest, i);
        if Unmarked(text) { FoundNowhere(text, m, i); } else { FoundFirst(text, m); }
      }
    }
    if Unmarked(text) {
      MarkerAt(text, rest);
    } else {
      FoundFirst(text, m);
      MarkerBefore(text, "\n" + (OUTPUT_END + rest), n);
    }
    FoundAt(s, m, n);
  }

  lemma MarkerAt(text: string, rest: string)
    ensures StartsWith((text + ("\n" + (OUTPUT_END + rest)))[|text|..], "\n" + OUTPUT_END)
  {
    var s := text + ("\n" + (OUTPUT_END + rest));
    assert s[|text|..] == ("\n" + OUTPUT_END) + rest;
  }

  /** A delimited output is copied up to its first end marker. */
  lemma DelimitedIsCopied(text: string, rest: string)
    ensures OutputAt(Line(OUTPUT_BEGIN) + (Line(text) + (Line(OUTPUT_END) + rest))) == Some(text[..CutAt(text)])
  {
    hide Find, LineLen, Strtoull, Marker, StartsWith, CutAt;
    DelimitersAreQuiet();
    NoCount();
    var body := Line(text) + (Line(OUTPUT_END) + rest);
    FirstLine(OUTPUT_BEGIN, body);
    EndIsFound(text, "\n" + rest);
    assert body == text + ("\n" + (OUTPUT_END + ("\n" + rest)));
    assert body[..CutAt(text)] == text[..CutAt(text)];
  }

  lemma NoCount()
    ensures Find(OUTPUT_BEGIN, "bytes=").None?
  {
    hide Find;
    forall i | 0 <= i <= 18 ensures !StartsWith(OUTPUT_BEGIN[i..], "bytes=") {
      if i <= 12 { Differs(OUTPUT_BEGIN[i..], "bytes=", 0); }
    }
    NowhereFound(OUTPUT_BEGIN, "bytes=");
  }

  lemma DelimiterBegins(rest: string)
    ensures BlockBegin(Line(OUTPUT_BEGIN) + rest, OUTPUT_BEGIN) == Some(0)
  {
    hide SkipBlock, LineLen, NextLine, Find;
    DelimitersAreQuiet();
    FirstLine(OUTPUT_BEGIN, rest);
    assert OUTPUT_BEGIN[..18] == OUTPUT_BEGIN;
  }

  lemma NothingInFront(header: string, meta: seq<string>, rest: string)
    requires HeaderLine(header) && PlainLines(meta)
    ensures BlockBegin(Line(header) + (Lines(meta) + rest), OUTPUT_BEGIN)
      == Shift(BlockBegin(rest, OUTPUT_BEGIN), |header| + 1 + |Lines(meta)|)
  {
    hide BlockBegin, StartsWith, Find, Lines, PlainLines;
    HeaderStart(header);
    Differs(header, OUTPUT_BEGIN, 0);
    LineIsNoOutput(header, Lines(meta) + rest);
    LinesAreNoOutput(meta, rest);
  }

  lemma Regroup(a: string, b: string, d: string, e: string, f: string, rest: string)
    ensures a + (b + (d + (e + f))) + rest == a + (b + (d + (e + (f + rest))))
    ensures (a + (b + rest))[|a| + |b|..] == rest
  {
  }

  /** A case whose output has no count, from the line that begins its output. */
  lemma DelimitedFront(c: Case, rest: string)
    requires c.Delimited? && HeaderLine(c.header) && PlainLines(c.meta)
    ensures var n := |c.header| + 1 + |Lines(c.meta)|;
      && n <= |PrintCase(c) + rest| && BlockBegin(PrintCase(c) + rest, OUTPUT_BEGIN) == Some(n)
      && (PrintCase(c) + rest)[n..] == Line(OUTPUT_BEGIN) + (Line(c.output) + (Line(OUTPUT_END) + rest))
  {
    hide BlockBegin, Lines, PlainLines, HeaderLine;
    var o := Line(OUTPUT_BEGIN) + (Line(c.output) + (Line(OUTPUT_END) + rest));
    NothingInFront(c.header, c.meta, o);
    DelimiterBegins(Line(c.output) + (Line(OUTPUT_END) + rest));
    Regroup(Line(c.header), Lines(c.meta), Line(OUTPUT_BEGIN), Line(c.output), Line(OUTPUT_END), rest);
    Regroup(Line(c.header), Lines(c.meta), "", "", "", o);
  }

  /** Of a case whose output has no count, the text is copied up to the first line with the end marker; so it is
      recovered exactly if and only if it holds no such line. */
  lemma DelimitedRoundTrip(c: Case, rest: string)
    requires c.Delimited? && HeaderLine(c.header) && PlainLines(c.meta)
    ensures CopyOutput(PrintCase(c) + rest) == Some(c.output[..CutAt(c.output)])
    ensures CopyOutput(PrintCase(c) + rest) == Some(c.output) <==> Unmarked(c.output)
  {
    hide BlockBegin, OutputAt, Find, Lines, Line, CutAt, Unmarked, PrintCase, HeaderLine, PlainLines;
    DelimitedFront(c, rest);
    DelimitedIsCopied(c.output, rest);
    assert c.output[..|c.output|] == c.output;
  }

  /** The model output of a printed case is recovered exactly. */
  lemma OutputRoundTrip(c: Case)
    requires CaseOk(c)
    ensures CopyOutput(PrintCase(c)) == Some(c.output)
  {
    hide CopyOutput, PrintCase, Quiet, Unmarked, PlainLine, HeaderLine;
    match c
    case Counted(_, _, _, _, _) => CountedRoundTrip(c);
    case Delimited(_, _, _) =>
      DelimitedRoundTrip(c, "");
      assert PrintCase(c) + "" == PrintCase(c);
  }

  lemma HeaderStart(l: string)
    requires StartsWith(l, CASE)
    ensures |l| > 0 && l[0] == '='
  {
    assert l[..|CASE|][0] == CASE[0];
  }

  // ---------------------------------------------------------------- the metadata fields

  /** The first metadata line with a key. */
  function FieldOf(ls: seq<string>, key: string): Option<string> {
    if ls == [] then None
    else if StartsWith(ls[0], key) then Some(ls[0][|key|..])
    else FieldOf(ls[1..], key)
  }

  lemma {:induction false} FieldIsFound(ls: seq<string>, key: string, rest: string)
    requires PlainLines(ls) && FieldOf(ls, key).Some?
    ensures LineField(Lines(ls) + rest, key) == FieldOf(ls, key)
  {
    hide LineLen, NextLine, StartsWith;
    var after := Lines(ls[1..]) + rest;
    assert PlainLine(ls[0]);
    FirstLine(ls[0], after);
    assert Lines(ls) + rest == Line(ls[0]) + after;
    if StartsWith(ls[0], key) {
      KeyFits(ls[0], key);
      assert (Line(ls[0]) + after)[|key|..|ls[0]|] == ls[0][|key|..];
    } else {
      FieldIsFound(ls[1..], key, rest);
    }
  }

  lemma KeyFits(l: string, key: string)
    requires StartsWith(l, key)
    ensures |key| <= |l|
  {
  }

  /** A metadata field reaches its buffer trimmed and clipped, and so it is read back whole if and only if it leaves
      room for the final NUL and does not end in a carriage return. */
  lemma FieldRoundTrip(c: Case, key: string, size: nat)
    requires CaseOk(c) && FieldOf(c.meta, key).Some? && key != [] && key[0] != '=' && size > 0
    ensures LineField(PrintCase(c), key) == FieldOf(c.meta, key)
    ensures CopiedField(LineField(PrintCase(c), key), size) == FieldOf(c.meta, key)
      <==> FieldFits(FieldOf(c.meta, key).value, size)
  {
    hide LineLen, NextLine, StartsWith, Blocks, Lines;
    var rest := Lines(c.meta) + Blocks(c);
    FirstLine(c.header, rest);
    HeaderStart(c.header);
    Differs(c.header, key, 0);
    FieldIsFound(c.meta, key, Blocks(c));
    FieldIsInLine(c.meta, key);
  }

  predicate FieldFits(field: string, size: nat) {
    |field| < size && (field == [] || field[|field| - 1] != '\r')
  }

  lemma {:induction false} FieldIsInLine(ls: seq<string>, key: string)
    requires PlainLines(ls) && FieldOf(ls, key).Some?
    ensures '\n' !in FieldOf(ls, key).value
  {
    if StartsWith(ls[0], key) {
      assert PlainLine(ls[0]);
    } else {
      FieldIsInLine(ls[1..], key);
    }
  }

  /** A field that ends in a carriage return loses it. */
  lemma ReturnIsLost(size: nat)
    requires size >= 3
    ensures Copied("ab\r", size) == "ab"
  {
    assert "ab\r"[..2] == "ab";
  }

  /** What the trace says about a case. */
  function Written(c: Case): Found {
    Found(FieldOf(c.meta, "source: "), FieldOf(c.meta, "id: "), FieldOf(c.meta, "status: "),
          FieldOf(c.meta, "picked: "), Some(c.output))
  }

  /** What regrading finds of it. */
  function Expected(c: Case): Found {
    Found(CopiedField(FieldOf(c.meta, "source: "), SOURCE_SIZE), CopiedField(FieldOf(c.meta, "id: "), ID_SIZE),
          CopiedField(FieldOf(c.meta, "status: "), STATUS_SIZE),
          CopiedField(FieldOf(c.meta, "picked: "), PICKED_SIZE), Some(c.output))
  }

  predicate HasFields(c: Case) {
    && FieldOf(c.meta, "source: ").Some? && FieldOf(c.meta, "id: ").Some?
    && FieldOf(c.meta, "status: ").Some? && FieldOf(c.meta, "picked: ").Some?
  }

  predicate AllFit(c: Case)
    requires HasFields(c)
  {
    && FieldFits(FieldOf(c.meta, "source: ").value, SOURCE_SIZE) && FieldFits(FieldOf(c.meta, "id: ").value, ID_SIZE)
    && FieldFits(FieldOf(c.meta, "status: ").value, STATUS_SIZE)
      && FieldFits(FieldOf(c.meta, "picked: ").value, PICKED_SIZE)
  }

  lemma CaseRoundTrip(c: Case)
    requires CaseOk(c) && HasFields(c)
    ensures FoundIn(PrintCase(c)) == Expected(c)
    ensures Expected(c) == Written(c) <==> AllFit(c)
  {
    hide CaseOk, PrintCase, CopyOutput, LineField, FieldOf, StartsWith, Copied, FieldFits;
    OutputRoundTrip(c);
    FieldRoundTrip(c, "source: ", SOURCE_SIZE);
    FieldRoundTrip(c, "id: ", ID_SIZE);
    FieldRoundTrip(c, "status: ", STATUS_SIZE);
    FieldRoundTrip(c, "picked: ", PICKED_SIZE);
  }

  /** Trace printing and regrading undo each other.  For any preamble and any list of cases with well-formed metadata
      lines, some counted and some only delimited, the scanner finds exactly the printed cases, in order, and copies
      every model output back byte for byte.  Texts behind a count may hold anything, fake case headers and fake block
      markers included; a text that is only delimited must hold no case header, block marker or end marker.  The fields
      of a case are found as they were written if and only if each of them fits its buffer and ends in no carriage
      return. */
  lemma TraceRoundTrip(preamble: seq<string>, cs: seq<Case>)
    requires PlainLines(preamble) && forall i :: 0 <= i < |cs| ==> CaseOk(cs[i]) && HasFields(cs[i])
    ensures |Regraded(PrintTrace(preamble, cs))| == |cs|
    ensures forall i :: 0 <= i < |cs| ==> Regraded(PrintTrace(preamble, cs))[i] == Expected(cs[i])
    ensures forall i :: 0 <= i < |cs| ==> (Regraded(PrintTrace(preamble, cs))[i] == Written(cs[i]) <==> AllFit(cs[i]))
  {
    hide NextCase, PlainLines, CaseOk, PrintCase, FoundIn, Expected, Written, CaseEnd, HasFields, AllFit;
    RegradesCases(cs);
    LinesAreNoCase(preamble, PrintCases(cs));
    var s := PrintTrace(preamble, cs);
    if cs == [] {
      NoCaseAtEnd();
    } else {
      assert s[|Lines(preamble)|..] == PrintCases(cs) && PrintCases(cs)[0..] == PrintCases(cs);
    }
    forall i | 0 <= i < |cs|
      ensures FoundIn(PrintCase(cs[i])) == Expected(cs[i])
      ensures Expected(cs[i]) == Written(cs[i]) <==> AllFit(cs[i])
    {
      CaseRoundTrip(cs[i]);
    }
  }
}
