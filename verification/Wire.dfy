/** Machine words and their byte order on the wire and in snapshot payloads. */
module Wire {

  type Byte = x: int | 0 <= x < 0x100
  type U32 = x: int | 0 <= x < 0x1_0000_0000
  type U64 = x: int | 0 <= x < 0x1_0000_0000_0000_0000

  const TWO32: int := 0x1_0000_0000
  const TWO64: int := 0x1_0000_0000_0000_0000

  datatype Option<T> = None | Some(value: T)

  const INT_MAX: int := 0x7fff_ffff

  /** A token id on the wire or in a payload must be a non-negative C int inside the vocabulary. */
  predicate InVocabulary(token: U32, vocab: nat) {
    token <= INT_MAX && token < vocab
  }

  /** Network byte order. */
  function PutBE32(x: U32): (r: seq<Byte>)
    ensures |r| == 4
  {
    [x / 0x100_0000, x / 0x1_0000 % 0x100, x / 0x100 % 0x100, x % 0x100]
  }

  function GetBE32(b: seq<Byte>): U32
    requires |b| >= 4
  {
    FromDigits(b[0], b[1], b[2], b[3])
  }

  function FromDigits(d3: Byte, d2: Byte, d1: Byte, d0: Byte): U32 {
    var a: int, b: int, c: int := d3, d2, d1;
    a * 0x100_0000 + b * 0x1_0000 + c * 0x100 + d0
  }

  /** Little-endian order, as the portable snapshot payload uses it. */
  function PutLE32(x: U32): (r: seq<Byte>)
    ensures |r| == 4
  {
    [x % 0x100, x / 0x100 % 0x100, x / 0x1_0000 % 0x100, x / 0x100_0000]
  }

  function GetLE32(b: seq<Byte>): U32
    requires |b| >= 4
  {
    FromDigits(b[3], b[2], b[1], b[0])
  }

  lemma FourDigits(x: U32)
    ensures x / 0x100_0000 * 0x100_0000 + x / 0x1_0000 % 0x100 * 0x1_0000 + x / 0x100 % 0x100 * 0x100 + x % 0x100 == x
  {
    var a, c := x / 0x100, x / 0x1_0000;
    assert x == a * 0x100 + x % 0x100;
    assert a == c * 0x100 + a % 0x100;
    assert c == x / 0x100_0000 * 0x100 + c % 0x100;
  }

  lemma DigitsOf(d3: Byte, d2: Byte, d1: Byte, d0: Byte)
    ensures var x := FromDigits(d3, d2, d1, d0);
      x / 0x100_0000 == d3 && x / 0x1_0000 % 0x100 == d2 && x / 0x100 % 0x100 == d1 && x % 0x100 == d0
  {
    var a: int, b: int := d3, d2;
    var x: int := FromDigits(d3, d2, d1, d0);
    assert x / 0x100 == a * 0x1_0000 + b * 0x100 + d1;
    assert x / 0x1_0000 == a * 0x100 + b;
    assert x / 0x100_0000 == a;
  }

  lemma WordRoundTrip(x: U32, rest: seq<Byte>)
    ensures GetBE32(PutBE32(x) + rest) == x && (PutBE32(x) + rest)[4..] == rest
  {
    FourDigits(x);
  }

  lemma LEWordRoundTrip(x: U32, rest: seq<Byte>)
    ensures GetLE32(PutLE32(x) + rest) == x && (PutLE32(x) + rest)[4..] == rest
  {
    FourDigits(x);
  }

  lemma BytesRoundTrip(b: seq<Byte>)
    requires |b| >= 4
    ensures PutBE32(GetBE32(b)) == b[..4]
    ensures PutLE32(GetLE32(b)) == b[..4]
  {
    DigitsOf(b[0], b[1], b[2], b[3]);
    DigitsOf(b[3], b[2], b[1], b[0]);
    assert b[..4] == [b[0], b[1], b[2], b[3]];
  }

  /** A sequence of words in network order, and back. */
  function PutWords(ws: seq<U32>): (r: seq<Byte>)
    ensures |r| == 4 * |ws|
  {
    if ws == [] then [] else PutBE32(ws[0]) + PutWords(ws[1..])
  }

  function GetWords(b: seq<Byte>, n: nat): (r: seq<U32>)
    requires |b| >= 4 * n
    ensures |r| == n
  {
    if n == 0 then [] else [GetBE32(b)] + GetWords(b[4..], n - 1)
  }

  lemma {:induction false} WordsRoundTrip(ws: seq<U32>, rest: seq<Byte>)
    ensures GetWords(PutWords(ws) + rest, |ws|) == ws && (PutWords(ws) + rest)[4 * |ws|..] == rest
  {
    hide PutBE32, GetBE32;
    if ws != [] {
      WordRoundTrip(ws[0], PutWords(ws[1..]) + rest);
      assert PutWords(ws) + rest == PutBE32(ws[0]) + (PutWords(ws[1..]) + rest);
      WordsRoundTrip(ws[1..], rest);
    }
  }

  lemma {:induction false} WordBytesRoundTrip(b: seq<Byte>, n: nat)
    requires |b| >= 4 * n
    ensures PutWords(GetWords(b, n)) == b[..4 * n]
  {
    if n > 0 {
      BytesRoundTrip(b);
      WordBytesRoundTrip(b[4..], n - 1);
      assert b[..4 * n] == b[..4] + b[4..][..4 * (n - 1)];
    }
  }

  /** The same in little-endian order. */
  function PutLEWords(ws: seq<U32>): (r: seq<Byte>)
    ensures |r| == 4 * |ws|
  {
    if ws == [] then [] else PutLE32(ws[0]) + PutLEWords(ws[1..])
  }

  function GetLEWords(b: seq<Byte>, n: nat): (r: seq<U32>)
    requires |b| >= 4 * n
    ensures |r| == n
  {
    if n == 0 then [] else [GetLE32(b)] + GetLEWords(b[4..], n - 1)
  }

  lemma {:induction false} LEWordsRoundTrip(ws: seq<U32>, rest: seq<Byte>)
    ensures GetLEWords(PutLEWords(ws) + rest, |ws|) == ws && (PutLEWords(ws) + rest)[4 * |ws|..] == rest
  {
    hide PutLE32, GetLE32;
    if ws != [] {
      LEWordRoundTrip(ws[0], PutLEWords(ws[1..]) + rest);
      assert PutLEWords(ws) + rest == PutLE32(ws[0]) + (PutLEWords(ws[1..]) + rest);
      LEWordsRoundTrip(ws[1..], rest);
    }
  }

  lemma {:induction false} LEWordBytesRoundTrip(b: seq<Byte>, n: nat)
    requires |b| >= 4 * n
    ensures PutLEWords(GetLEWords(b, n)) == b[..4 * n]
  {
    if n > 0 {
      BytesRoundTrip(b);
      LEWordBytesRoundTrip(b[4..], n - 1);
      assert b[..4 * n] == b[..4] + b[4..][..4 * (n - 1)];
    }
  }

  /** n little-endian words off the front of a stream, and the rest. */
  function TakeLEWords(b: seq<Byte>, n: nat): Option<(seq<U32>, seq<Byte>)> {
    if |b| < 4 * n then None else Some((GetLEWords(b, n), b[4 * n..]))
  }

  lemma TakesWords(ws: seq<U32>, rest: seq<Byte>)
    ensures TakeLEWords(PutLEWords(ws) + rest, |ws|) == Some((ws, rest))
  {
    LEWordsRoundTrip(ws, rest);
  }

  function High(x: U64): U32 { x / TWO32 }
  function Low(x: U64): U32 { x % TWO32 }

  function FromHalves(hi: U32, lo: U32): U64 { hi * TWO32 + lo }

  lemma HalvesRoundTrip(x: U64, hi: U32, lo: U32)
    ensures FromHalves(High(x), Low(x)) == x
    ensures High(FromHalves(hi, lo)) == hi && Low(FromHalves(hi, lo)) == lo
  {
  }
}
