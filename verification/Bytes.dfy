/** Bytes, lowercase hexadecimal (Go's encoding/hex) and the digest text
    `sha256:<hex>`. SHA-256 itself is a parameter: any function on bytes. */
module Bytes {

  type byte = b: int | 0 <= b < 256

  /** The shape of SHA-256: 32 bytes for every input. */
  type Hash = h: seq<byte> -> seq<byte> | forall b :: |h(b)| == 32
    witness b => ZEROS

  const ZEROS: seq<byte> := [0, 0, 0, 0, 0, 0, 0, 0, 0, 0, 0, 0, 0, 0, 0, 0, 0, 0, 0, 0, 0, 0, 0, 0, 0, 0, 0, 0, 0, 0, 0, 0]

  /** Two inputs with one hash. With 32 bytes for every input there always are
      some, so the results below name the two inputs that would have to be. */
  ghost predicate Collide(h: Hash, a: seq<byte>, b: seq<byte>) { a != b && h(a) == h(b) }

  predicate IsLowerHex(c: char) { '0' <= c <= '9' || 'a' <= c <= 'f' }

  function HexDigit(n: nat): (c: char)
    requires n < 16
    ensures IsLowerHex(c)
  {
    if n < 10 then ('0' as int + n) as char else ('a' as int + n - 10) as char
  }

  /** hex.DecodeString takes upper case too. */
  predicate IsHex(c: char) { IsLowerHex(c) || 'A' <= c <= 'F' }

  function HexValue(c: char): (n: nat)
    requires IsHex(c)
    ensures n < 16
  {
    if c <= '9' then c as int - '0' as int
    else if c <= 'F' then c as int - 'A' as int + 10
    else c as int - 'a' as int + 10
  }

  function HexEncode(b: seq<byte>): (s: string)
    ensures |s| == 2 * |b|
  {
    if b == [] then [] else [HexDigit(b[0] / 16), HexDigit(b[0] % 16)] + HexEncode(b[1..])
  }

  datatype Decoded = Decoded(bytes: seq<byte>) | BadHex

  function HexDecode(s: string): (d: Decoded)
    ensures d.Decoded? ==> |s| == 2 * |d.bytes|
  {
    if s == [] then Decoded([])
    else if |s| == 1 || !IsHex(s[0]) || !IsHex(s[1]) then BadHex
    else
      match HexDecode(s[2..])
      case BadHex => BadHex
      case Decoded(rest) => Decoded([16 * HexValue(s[0]) + HexValue(s[1])] + rest)
  }

  lemma DigitDecodes(n: nat)
    requires n < 16
    ensures IsHex(HexDigit(n)) && HexValue(HexDigit(n)) == n
  {
  }

  lemma {:induction false} HexRoundTrip(b: seq<byte>)
    ensures HexDecode(HexEncode(b)) == Decoded(b)
  {
    if b != [] {
      var s, rest := HexEncode(b), HexEncode(b[1..]);
      HexRoundTrip(b[1..]);
      DigitDecodes(b[0] / 16);
      DigitDecodes(b[0] % 16);
      assert s[0] == HexDigit(b[0] / 16) && s[1] == HexDigit(b[0] % 16) && s[2..] == rest;
      HexStep(s, b[0], b[1..]);
      assert b == [b[0]] + b[1..];
    }
  }

  lemma HexStep(s: string, first: byte, rest: seq<byte>)
    requires |s| >= 2 && IsHex(s[0]) && IsHex(s[1]) && HexValue(s[0]) == first / 16 && HexValue(s[1]) == first % 16
    requires HexDecode(s[2..]) == Decoded(rest)
    ensures HexDecode(s) == Decoded([first] + rest)
  {
  }

  predicate LowerHexText(s: string) { forall i :: 0 <= i < |s| ==> IsLowerHex(s[i]) }

  lemma {:induction false} HexEncodeIsLowerHex(b: seq<byte>)
    ensures LowerHexText(HexEncode(b))
  {
    if b != [] {
      HexEncodeIsLowerHex(b[1..]);
      var s, rest := HexEncode(b), HexEncode(b[1..]);
      forall i | 0 <= i < |s| ensures IsLowerHex(s[i]) {
        if i >= 2 { assert s[i] == rest[i - 2]; }
      }
    }
  }

  lemma {:induction false} LowerHexDecodes(s: string)
    requires |s| % 2 == 0 && LowerHexText(s)
    ensures HexDecode(s).Decoded? && HexEncode(HexDecode(s).bytes) == s
  {
    if s != [] {
      assert IsLowerHex(s[0]) && IsLowerHex(s[1]);
      LowerHexDecodes(s[2..]);
      var rest := HexDecode(s[2..]).bytes;
      var b: byte := 16 * HexValue(s[0]) + HexValue(s[1]);
      PairPrints(s[0], s[1]);
      assert HexDecode(s).bytes == [b] + rest;
      Parts([b], rest);
      assert s == [s[0], s[1]] + s[2..];
    }
  }

  lemma PairPrints(c: char, d: char)
    requires IsLowerHex(c) && IsLowerHex(d)
    ensures var v := 16 * HexValue(c) + HexValue(d); HexDigit(v / 16) == c && HexDigit(v % 16) == d
  {
    var h, l := HexValue(c), HexValue(d);
    assert (16 * h + l) / 16 == h && (16 * h + l) % 16 == l;
  }

  /** scope.DigestOf. */
  function DigestOf(h: Hash, b: seq<byte>): (s: string)
    ensures |s| == 71
  {
    "sha256:" + HexEncode(h(b))
  }

  /** Digest texts are equal only for equal or colliding bytes. */
  lemma DigestOfTells(h: Hash, a: seq<byte>, b: seq<byte>)
    ensures DigestOf(h, a) == DigestOf(h, b) <==> a == b || Collide(h, a, b)
  {
    var x, y := h(a), h(b);
    if DigestOf(h, a) == DigestOf(h, b) {
      DigestTail(x);
      DigestTail(y);
      HexRoundTrip(x);
      HexRoundTrip(y);
    }
  }

  lemma DigestTail(x: seq<byte>)
    ensures ("sha256:" + HexEncode(x))[7..] == HexEncode(x)
  {
  }

  lemma Assoc<T>(a: seq<T>, b: seq<T>, c: seq<T>)
    ensures (a + b) + c == a + (b + c)
  {
  }

  lemma Parts<T>(a: seq<T>, b: seq<T>)
    ensures (a + b)[..|a|] == a && (a + b)[|a|..] == b
    ensures a != [] ==> (a + b)[0] == a[0]
  {
  }
}
