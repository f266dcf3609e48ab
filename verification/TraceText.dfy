/** The text scanning primitives of trace regrading: lines, substring search, decimal numbers. */
module TraceText {
  import opened Wire

  predicate StartsWith(s: string, p: string) {
    |s| >= |p| && s[..|p|] == p
  }

  // ---------------------------------------------------------------- lines

  /** The length of the first line, without its newline. */
  function LineLen(s: string): (n: nat)
    ensures n <= |s| && '\n' !in s[..n] && (n < |s| ==> s[n] == '\n')
  {
    if s == [] || s[0] == '\n' then 0
    else
      var n := LineLen(s[1..]);
      assert s[..n + 1] == [s[0]] + s[1..][..n];
      n + 1
  }

  /** Where the next line starts. */
  function NextLine(s: string): (n: nat)
    ensures n <= |s| && (s != [] ==> n > 0)
  {
    if LineLen(s) < |s| then LineLen(s) + 1 else |s|
  }

  lemma {:induction false} LineLenIs(line: string, rest: string)
    requires '\n' !in line && (rest == [] || rest[0] == '\n')
    ensures LineLen(line + rest) == |line|
  {
    if line == [] {
      assert line + rest == rest;
    } else {
      assert (line + rest)[1..] == line[1..] + rest;
      LineLenIs(line[1..], rest);
    }
  }

  function Line(line: string): string {
    line + "\n"
  }

  lemma FirstLine(line: string, rest: string)
    requires '\n' !in line
    ensures LineLen(Line(line) + rest) == |line| && NextLine(Line(line) + rest) == |line| + 1
    ensures (Line(line) + rest)[..|line|] == line && (Line(line) + rest)[|line| + 1..] == rest
  {
    assert Line(line) + rest == line + ("\n" + rest);
    LineLenIs(line, "\n" + rest);
  }

  // ---------------------------------------------------------------- substrings

  /** The first occurrence of a non-empty needle. */
  function Find(hay: string, needle: string): (r: Option<nat>)
    ensures r.Some? ==> r.value + |needle| <= |hay|
  {
    if |hay| < |needle| then None
    else if StartsWith(hay, needle) then Some(0)
    else if hay == [] then None
    else
      var r := Find(hay[1..], needle);
      if r.None? then None else Some(r.value + 1)
  }

  lemma {:induction false} FoundAt(hay: string, needle: string, k: nat)
    requires k <= |hay| && StartsWith(hay[k..], needle)
    requires forall i :: 0 <= i < k ==> !StartsWith(hay[i..], needle)
    ensures Find(hay, needle) == Some(k)
  {
    assert hay[0..] == hay;
    if k > 0 {
      assert !StartsWith(hay[0..], needle);
      assert hay[1..][k - 1..] == hay[k..];
      assert forall i :: 0 <= i < k - 1 ==> hay[1..][i..] == hay[i + 1..];
      FoundAt(hay[1..], needle, k - 1);
    }
  }

  // ---------------------------------------------------------------- numbers

  predicate IsSpace(c: char) {
    c == ' ' || '\t' <= c <= '\r'
  }

  predicate IsDigit(c: char) {
    '0' <= c <= '9'
  }

  function Digit(c: char): nat
    requires IsDigit(c)
  {
    (c - '0') as int
  }

  function SpaceRun(s: string): (n: nat)
    ensures n <= |s|
  {
    if s == [] || !IsSpace(s[0]) then 0 else 1 + SpaceRun(s[1..])
  }

  function DigitRun(s: string): (n: nat)
    ensures n <= |s| && forall i :: 0 <= i < n ==> IsDigit(s[i])
  {
    if s == [] || !IsDigit(s[0]) then 0
    else
      var n := DigitRun(s[1..]);
      assert forall i :: 1 <= i < n + 1 ==> s[i] == s[1..][i - 1];
      n + 1
  }

  predicate AllDigits(s: string) {
    forall i :: 0 <= i < |s| ==> IsDigit(s[i])
  }

  function Number(ds: string): nat
    requires AllDigits(ds)
  {
    if ds == [] then 0 else Number(ds[..|ds| - 1]) * 10 + Digit(ds[|ds| - 1])
  }

  /** strtoull in base 10: the value, and how many characters were read, 0 when there is no number.  White space
      and a sign may come first, a minus sign negates modulo 2^64, and values too large saturate. */
  function Strtoull(s: string): (r: (nat, nat))
    ensures r.1 <= |s| && r.0 < TWO64
  {
    var sp := SpaceRun(s);
    var signed := sp < |s| && (s[sp] == '+' || s[sp] == '-');
    var start := if signed then sp + 1 else sp;
    var run := DigitRun(s[start..]);
    if run == 0 then (0, 0)
    else
      var v := Number(s[start..start + run]);
      if v >= TWO64 then (TWO64 - 1, start + run)
      else if signed && s[sp] == '-' && v != 0 then (TWO64 - v, start + run)
      else (v, start + run)
  }

  /** A number as the trace writer prints it. */
  function Decimal(n: nat): (ds: string)
    ensures ds != [] && AllDigits(ds)
  {
    if n < 10 then [n as char + '0'] else Decimal(n / 10) + [(n % 10) as char + '0']
  }

  lemma {:induction false} NumberOfDecimal(n: nat)
    ensures Number(Decimal(n)) == n
  {
    DigitOf(n % 10);
    if n >= 10 {
      NumberOfDecimal(n / 10);
      assert Decimal(n)[..|Decimal(n)| - 1] == Decimal(n / 10);
    } else {
      assert Decimal(n)[..0] == [];
    }
  }

  lemma DigitOf(d: nat)
    requires d < 10
    ensures IsDigit(d as char + '0') && Digit(d as char + '0') == d
  {
  }

  lemma {:induction false} DigitRunIs(ds: string, rest: string)
    requires AllDigits(ds) && (rest == [] || !IsDigit(rest[0]))
    ensures DigitRun(ds + rest) == |ds|
  {
    if ds == [] {
      assert ds + rest == rest;
    } else {
      assert (ds + rest)[1..] == ds[1..] + rest;
      DigitRunIs(ds[1..], rest);
    }
  }

  /** What was printed is read back. */
  lemma ReadsDecimal(n: nat, rest: string)
    requires n < TWO64 && (rest == [] || !IsDigit(rest[0]))
    ensures Strtoull(Decimal(n) + rest) == (n, |Decimal(n)|)
  {
    var ds, s := Decimal(n), Decimal(n) + rest;
    assert s[0] == ds[0] && IsDigit(ds[0]);
    assert SpaceRun(s) == 0;
    assert s[0..] == s;
    DigitRunIs(ds, rest);
    assert s[0..0 + |ds|] == ds;
    NumberOfDecimal(n);
  }

  predicate AllSpaces(s: string) {
    forall i :: 0 <= i < |s| ==>
      s[i] == ' ' || s[i] == '\t' || s[i] == '\n' || s[i] == '\U{0B}' || s[i] == '\U{0C}' || s[i] == '\r'
  }

  lemma {:induction false} SpaceRunIs(spaces: string, rest: string)
    requires AllSpaces(spaces) && (rest == [] || !IsSpace(rest[0]))
    ensures SpaceRun(spaces + rest) == |spaces|
  {
    if spaces == [] {
      assert spaces + rest == rest;
    } else {
      assert (spaces + rest)[1..] == spaces[1..] + rest;
      SpaceRunIs(spaces[1..], rest);
    }
  }

  /** A number of a given sign. */
  function Signed(minus: bool, v: nat): nat {
    if v > 0xffff_ffff_ffff_ffff then 0xffff_ffff_ffff_ffff
    else if minus then (0x1_0000_0000_0000_0000 - v) % 0x1_0000_0000_0000_0000
    else v
  }

  lemma StrtoullOf(s: string, sp: nat, start: nat, run: nat)
    requires sp == SpaceRun(s) && start <= |s| && run == DigitRun(s[start..]) && run > 0
    requires start == if sp < |s| && (s[sp] == '+' || s[sp] == '-') then sp + 1 else sp
    ensures Strtoull(s) == (Signed(sp < |s| && s[sp] == '-', Number(s[start..start + run])), start + run)
  {
    hide SpaceRun, DigitRun, Number;
  }

  lemma SignInFront(sign: string, u: string)
    requires (sign == "" || sign == "+" || sign == "-") && u != [] && IsDigit(u[0])
    ensures var t := sign + u;
      && t != [] && !IsSpace(t[0]) && (t[0] == '-' <==> sign == "-")
      && (if t[0] == '+' || t[0] == '-' then 1 else 0) == |sign| && t[|sign|..] == u
  {
    if sign == "" { assert sign + u == u; }
  }

  lemma ReadsBehind(s: string, spaces: string, t: string, k: nat, ds: string)
    requires s == spaces + t && AllSpaces(spaces) && t != [] && !IsSpace(t[0])
    requires k == if t[0] == '+' || t[0] == '-' then 1 else 0
    requires k + |ds| <= |t| && ds != [] && t[k..k + |ds|] == ds && DigitRun(t[k..]) == |ds| && AllDigits(ds)
    ensures Strtoull(s) == (Signed(t[0] == '-', Number(ds)), |spaces| + k + |ds|)
  {
    hide SpaceRun, DigitRun, Number, Strtoull, Signed;
    SpaceRunIs(spaces, t);
    assert s[|spaces| + k..] == t[k..] && s[|spaces|] == t[0];
    assert s[|spaces| + k..|spaces| + k + |ds|] == t[k..k + |ds|];
    StrtoullOf(s, |spaces|, |spaces| + k, |ds|);
  }

  /** What a count means that is written with white space and a sign in front: its value, saturated at 2^64 - 1, or
      behind a minus sign its negation modulo 2^64. */
  lemma ReadsSigned(spaces: string, sign: string, ds: string, rest: string)
    requires AllSpaces(spaces) && (sign == "" || sign == "+" || sign == "-")
    requires AllDigits(ds) && ds != [] && (rest == [] || !IsDigit(rest[0]))
    ensures Strtoull(spaces + (sign + (ds + rest)))
         == (Signed(sign == "-", Number(ds)), |spaces| + |sign| + |ds|)
  {
    hide SpaceRun, DigitRun, Number, Strtoull, Signed, AllSpaces, AllDigits, IsSpace, IsDigit;
    var u := ds + rest;
    DigitsInFront(ds, rest);
    SignInFront(sign, u);
    DigitRunIs(ds, rest);
    var t := sign + u;
    assert t[|sign|..|sign| + |ds|] == ds;
    ReadsBehind(spaces + t, spaces, t, |sign|, ds);
  }

  lemma DigitsInFront(ds: string, rest: string)
    requires AllDigits(ds) && ds != []
    ensures ds + rest != [] && IsDigit((ds + rest)[0])
  {
  }

  /** Without a digit there is no number. */
  lemma ReadsNothing(spaces: string, rest: string)
    requires AllSpaces(spaces)
    requires (rest == [] || !(IsSpace(rest[0]) || IsDigit(rest[0]) || rest[0] == '+' || rest[0] == '-'))
    ensures Strtoull(spaces + rest) == (0, 0)
  {
    SpaceRunIs(spaces, rest);
    assert (spaces + rest)[|spaces|..] == rest;
  }
}
