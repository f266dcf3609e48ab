/** The rolling token hash that guards every distributed KV session
    (FNV-1a over the four little-endian bytes of each token id, modulo 2^64). */
module TokenHash {
  import opened Wire

  const HASH_INIT: U64 := 1469598103934665603
  const HASH_PRIME: int := 1099511628211

  /** The inverse of HASH_PRIME modulo 2^64; the program never needs it, the proofs do. */
  const PRIME_INVERSE: int := 14886173955864302971

  /** Exclusive-or of two unsigned integers, one bit at a time. */
  function Xor(a: nat, b: nat): nat
    decreases a + b
  {
    if a == 0 && b == 0 then 0 else (a % 2 + b % 2) % 2 + 2 * Xor(a / 2, b / 2)
  }

  lemma {:induction false} XorBound(a: nat, b: nat, bound: nat)
    requires a < bound && b < bound && PowerOfTwo(bound)
    ensures Xor(a, b) < bound
    decreases bound
  {
    if !(a == 0 && b == 0) {
      XorBound(a / 2, b / 2, bound / 2);
    }
  }

  predicate PowerOfTwo(n: nat) {
    n == 1 || (n > 1 && n % 2 == 0 && PowerOfTwo(n / 2))
  }

  function XorByte(a: Byte, b: Byte): Byte {
    XorBound(a, b, 0x100);
    Xor(a, b)
  }

  /** Exclusive-or of a byte into the low eight bits of the state. */
  function Mix(h: U64, b: Byte): U64 {
    (h / 0x100) * 0x100 + XorByte(h % 0x100, b)
  }

  /** The wrapping 64-bit multiplication by the FNV prime. */
  function Multiply(x: U64): U64 {
    (x * HASH_PRIME) % TWO64
  }

  function StepByte(h: U64, b: Byte): U64 {
    Multiply(Mix(h, b))
  }

  function HashBytes(h: U64, bytes: seq<Byte>): U64
    decreases |bytes|
  {
    if bytes == [] then h else HashBytes(StepByte(h, bytes[0]), bytes[1..])
  }

  /** Byte i of the token id after the cast to uint32_t. */
  function TokenByte(token: int, i: nat): Byte
    requires i < 4
  {
    var t := token % 0x1_0000_0000;
    if i == 0 then t % 0x100
    else if i == 1 then (t / 0x100) % 0x100
    else if i == 2 then (t / 0x1_0000) % 0x100
    else (t / 0x100_0000) % 0x100
  }

  function TokenBytes(token: int): seq<Byte> {
    [TokenByte(token, 0), TokenByte(token, 1), TokenByte(token, 2), TokenByte(token, 3)]
  }

  function SpanBytes(tokens: seq<int>): seq<Byte> {
    if tokens == [] then [] else TokenBytes(tokens[0]) + SpanBytes(tokens[1..])
  }

  function HashToken(h: U64, token: int): U64 {
    HashBytes(h, TokenBytes(token))
  }

  function HashSpan(h: U64, tokens: seq<int>): U64
    decreases |tokens|
  {
    if tokens == [] then h else HashSpan(HashToken(h, tokens[0]), tokens[1..])
  }

  function HashPrefix(tokens: seq<int>): U64 {
    HashSpan(HASH_INIT, tokens)
  }

  // ---------------------------------------------------------------- loops

  method HashTokenLoop(h0: U64, token: int) returns (h: U64)
    ensures h == HashToken(h0, token)
  {
    h := h0;
    var i := 0;
    while i < 4
      invariant 0 <= i <= 4
      invariant HashBytes(h, TokenBytes(token)[i..]) == HashToken(h0, token)
    {
      assert TokenBytes(token)[i..][1..] == TokenBytes(token)[i + 1..];
      h := StepByte(h, TokenByte(token, i));
      i := i + 1;
    }
  }

  method HashSpanLoop(h0: U64, tokens: seq<int>) returns (h: U64)
    ensures h == HashSpan(h0, tokens)
  {
    h := h0;
    var i := 0;
    while i < |tokens|
      invariant 0 <= i <= |tokens|
      invariant HashSpan(h, tokens[i..]) == HashSpan(h0, tokens)
    {
      assert tokens[i..][1..] == tokens[i + 1..];
      h := HashTokenLoop(h, tokens[i]);
      i := i + 1;
    }
  }

  method HashPrefixLoop(tokens: seq<int>) returns (h: U64)
    ensures h == HashPrefix(tokens)
  {
    h := HashSpanLoop(HASH_INIT, tokens);
  }

  // ---------------------------------------------------------------- composition

  lemma {:induction false} HashBytesComposes(h: U64, a: seq<Byte>, b: seq<Byte>)
    ensures HashBytes(h, a + b) == HashBytes(HashBytes(h, a), b)
    decreases |a|
  {
    if a == [] {
      assert a + b == b;
    } else {
      assert (a + b)[1..] == a[1..] + b;
      HashBytesComposes(StepByte(h, a[0]), a[1..], b);
    }
  }

  /** Hashing a prefix and then a span is hashing their concatenation. */
  lemma {:induction false} HashSpanComposes(h: U64, a: seq<int>, b: seq<int>)
    ensures HashSpan(h, a + b) == HashSpan(HashSpan(h, a), b)
    decreases |a|
  {
    if a == [] {
      assert a + b == b;
    } else {
      assert (a + b)[1..] == a[1..] + b;
      HashSpanComposes(HashToken(h, a[0]), a[1..], b);
    }
  }

  lemma {:induction false} HashSpanIsHashBytes(h: U64, tokens: seq<int>)
    ensures HashSpan(h, tokens) == HashBytes(h, SpanBytes(tokens))
    decreases |tokens|
  {
    if tokens != [] {
      HashBytesComposes(h, TokenBytes(tokens[0]), SpanBytes(tokens[1..]));
      HashSpanIsHashBytes(HashToken(h, tokens[0]), tokens[1..]);
    }
  }

  // ---------------------------------------------------------------- the hash never heals

  lemma {:induction false} XorInjective(a: nat, b: nat, c: nat)
    ensures Xor(a, c) == Xor(b, c) ==> a == b
    ensures Xor(c, a) == Xor(c, b) ==> a == b
    decreases a + b + c
  {
    if a + b + c > 0 {
      XorInjective(a / 2, b / 2, c / 2);
    }
  }

  lemma WrapsAway(x: U64, z: int)
    ensures (x + TWO64 * z) % TWO64 == x
  {
  }

  lemma PrimeInverts(x: U64)
    ensures (Multiply(x) * PRIME_INVERSE) % TWO64 == x
  {
    var q: int, k: int := (x * HASH_PRIME) / TWO64, (HASH_PRIME * PRIME_INVERSE - 1) / TWO64;
    var z := x * k - q * PRIME_INVERSE;
    assert HASH_PRIME * PRIME_INVERSE == k * TWO64 + 1;
    var y: int :| y == x * HASH_PRIME - q * TWO64;
    assert y * PRIME_INVERSE == x + TWO64 * z;
    WrapsAway(x, z);
  }

  lemma MultiplyInjective(x: U64, y: U64)
    ensures Multiply(x) == Multiply(y) ==> x == y
  {
    PrimeInverts(x);
    PrimeInverts(y);
  }

  lemma MixInjectiveInState(h1: U64, h2: U64, b: Byte)
    ensures Mix(h1, b) == Mix(h2, b) ==> h1 == h2
  {
    var q1, q2, x1, x2 := h1 / 0x100, h2 / 0x100, XorByte(h1 % 0x100, b), XorByte(h2 % 0x100, b);
    if q1 * 0x100 + x1 == q2 * 0x100 + x2 {
      assert q1 == q2 && x1 == x2;
      XorInjective(h1 % 0x100, h2 % 0x100, b);
    }
  }

  lemma MixInjectiveInByte(h: U64, b1: Byte, b2: Byte)
    ensures Mix(h, b1) == Mix(h, b2) ==> b1 == b2
  {
    XorInjective(b1, b2, h % 0x100);
  }

  /** One byte step is injective in the state and in the byte. */
  lemma StepByteInjective(h1: U64, h2: U64, b1: Byte, b2: Byte)
    ensures StepByte(h1, b1) == StepByte(h2, b1) ==> h1 == h2
    ensures StepByte(h1, b1) == StepByte(h1, b2) ==> b1 == b2
  {
    MultiplyInjective(Mix(h1, b1), Mix(h2, b1));
    MultiplyInjective(Mix(h1, b1), Mix(h1, b2));
    MixInjectiveInState(h1, h2, b1);
    MixInjectiveInByte(h1, b1, b2);
  }

  lemma {:induction false} HashBytesInjective(h1: U64, h2: U64, bytes: seq<Byte>)
    ensures HashBytes(h1, bytes) == HashBytes(h2, bytes) <==> h1 == h2
    decreases |bytes|
  {
    if bytes != [] {
      StepByteInjective(h1, h2, bytes[0], bytes[0]);
      HashBytesInjective(StepByte(h1, bytes[0]), StepByte(h2, bytes[0]), bytes[1..]);
    }
  }

  /** Two sessions whose hashes differ still differ after any common span, and only then. */
  lemma HashNeverHeals(h1: U64, h2: U64, span: seq<int>)
    ensures HashSpan(h1, span) == HashSpan(h2, span) <==> h1 == h2
  {
    HashSpanIsHashBytes(h1, span);
    HashSpanIsHashBytes(h2, span);
    HashBytesInjective(h1, h2, SpanBytes(span));
  }

  /** Byte timelines that differ in exactly one byte have different hashes after any common suffix. */
  lemma OneByteDifferenceSurvives(h: U64, before: seq<Byte>, x: Byte, y: Byte, after: seq<Byte>)
    ensures HashBytes(h, before + [x] + after) == HashBytes(h, before + [y] + after) <==> x == y
  {
    var m := HashBytes(h, before);
    HashBytesComposes(h, before + [x], after);
    HashBytesComposes(h, before + [y], after);
    HashBytesComposes(h, before, [x]);
    HashBytesComposes(h, before, [y]);
    assert HashBytes(m, [x]) == StepByte(m, x) by { assert [x][1..] == []; }
    assert HashBytes(m, [y]) == StepByte(m, y) by { assert [y][1..] == []; }
    StepByteInjective(m, m, x, y);
    HashBytesInjective(StepByte(m, x), StepByte(m, y), after);
  }

  lemma {:induction false} SpanBytesComposes(a: seq<int>, b: seq<int>)
    ensures SpanBytes(a + b) == SpanBytes(a) + SpanBytes(b)
    decreases |a|
  {
    if a == [] {
      assert a + b == b;
    } else {
      assert (a + b)[1..] == a[1..] + b;
      SpanBytesComposes(a[1..], b);
    }
  }

  /** Token timelines that differ in one byte of one token have different hashes. */
  lemma OneTokenByteDifferenceSurvives(before: seq<int>, t: int, u: int, after: seq<int>, i: nat)
    requires i < 4
    requires forall j: nat :: j < 4 && j != i ==> TokenByte(t, j) == TokenByte(u, j)
    ensures HashPrefix(before + [t] + after) == HashPrefix(before + [u] + after)
       <==> TokenByte(t, i) == TokenByte(u, i)
  {
    TimelineBytes(before, t, after);
    TimelineBytes(before, u, after);
    HashSpanIsHashBytes(HASH_INIT, before + [t] + after);
    HashSpanIsHashBytes(HASH_INIT, before + [u] + after);
    assert forall j ::
      0 <= j < 4 && j != i ==> TokenBytes(t)[j] == TokenByte(t, j) && TokenBytes(u)[j] == TokenByte(u, j);
    OneByteOfBlockSurvives(SpanBytes(before), TokenBytes(t), TokenBytes(u), SpanBytes(after), i);
  }

  lemma OneByteOfBlockSurvives(before: seq<Byte>, t: seq<Byte>, u: seq<Byte>, after: seq<Byte>, i: nat)
    requires i < |t| == |u|
    requires forall j :: 0 <= j < |t| && j != i ==> t[j] == u[j]
    ensures HashBytes(HASH_INIT, before + t + after) == HashBytes(HASH_INIT, before + u + after) <==> t[i] == u[i]
  {
    var p := before + t[..i];
    var s := t[i + 1..] + after;
    assert before + t + after == p + [t[i]] + s;
    assert before + u + after == p + [u[i]] + s;
    OneByteDifferenceSurvives(HASH_INIT, p, t[i], u[i], s);
  }

  lemma TimelineBytes(before: seq<int>, t: int, after: seq<int>)
    ensures SpanBytes(before + [t] + after) == SpanBytes(before) + TokenBytes(t) + SpanBytes(after)
  {
    SpanBytesComposes(before + [t], after);
    SpanBytesComposes(before, [t]);
    assert [t][1..] == [];
    assert SpanBytes([t]) == TokenBytes(t) + [];
  }

  lemma EmptyPrefix()
    ensures HashPrefix([]) == HASH_INIT
  {
  }
}
