/** The JSON text Go's encoding/json prints for the digest preimages: string
    escaping (section 7 of RFC 8259, with the HTML-safe escapes json.Marshal
    adds) over UTF-8, and objects of string and number members. The text is
    read back uniquely, so a digest of it binds every member. */
module Json {
  import opened Bytes
  import Decimal

  const QUOTE: byte := 0x22
  const BACKSLASH: byte := 0x5C
  const NEWLINE: byte := 0x0A

  function Utf8(n: nat): (b: seq<byte>)
    requires n < 0x110000
    ensures |b| >= 1
  {
    if n < 0x80 then [n]
    else if n < 0x800 then [0xC0 + n / 64, 0x80 + n % 64]
    else if n < 0x10000 then [0xE0 + n / 4096, 0x80 + n / 64 % 64, 0x80 + n % 64]
    else [0xF0 + n / 262144, 0x80 + n / 4096 % 64, 0x80 + n / 64 % 64, 0x80 + n % 64]
  }

  function HexByte(n: nat): byte
    requires n < 16
  {
    if n < 10 then 0x30 + n else 0x61 + n - 10
  }

  function UnhexByte(b: byte): int {
    if b < 0x61 then b - 0x30 else b - 0x61 + 10
  }

  /** `\uXXXX` in lower case. */
  function Escape4(n: nat): seq<byte>
    requires n < 0x10000
  {
    [BACKSLASH, 0x75, HexByte(n / 4096), HexByte(n / 256 % 16), HexByte(n / 16 % 16), HexByte(n % 16)]
  }

  /** The letter of a two-character escape, 0 when there is none. */
  function ShortEscape(n: nat): byte {
    if n == 0x22 then 0x22 else if n == 0x5C then 0x5C
    else if n == 0x08 then 0x62 else if n == 0x0C then 0x66
    else if n == 0x0A then 0x6E else if n == 0x0D then 0x72
    else if n == 0x09 then 0x74 else 0
  }

  /** '<', '>', '&' and the two line separators are escaped for HTML and JavaScript. */
  predicate LongEscape(n: nat) {
    n < 0x20 || n == 0x3C || n == 0x3E || n == 0x26 || n == 0x2028 || n == 0x2029
  }

  /** What one character of a string becomes. */
  function Chunk(c: char): (b: seq<byte>)
    ensures |b| >= 1
  {
    var n := c as int;
    if ShortEscape(n) != 0 then [BACKSLASH, ShortEscape(n)]
    else if LongEscape(n) then Escape4(n)
    else Utf8(n)
  }

  function LongAt(e: byte): int {
    if e == 0x62 then 0x08 else if e == 0x66 then 0x0C else if e == 0x6E then 0x0A
    else if e == 0x72 then 0x0D else if e == 0x74 then 0x09 else e
  }

  /** A reader: the character a text begins with, from its first bytes alone. */
  function Lead(b: seq<byte>): int {
    if |b| == 0 then -1
    else if b[0] == BACKSLASH then
      if |b| < 2 then -1
      else if b[1] != 0x75 then LongAt(b[1])
      else if |b| < 6 then -1
      else 4096 * UnhexByte(b[2]) + 256 * UnhexByte(b[3]) + 16 * UnhexByte(b[4]) + UnhexByte(b[5])
    else if b[0] < 0x80 then b[0]
    else if b[0] < 0xE0 then if |b| < 2 then -1 else 64 * At(b, 0, 0xC0) + At(b, 1, 0x80)
    else if b[0] < 0xF0 then
      if |b| < 3 then -1 else 4096 * At(b, 0, 0xE0) + 64 * At(b, 1, 0x80) + At(b, 2, 0x80)
    else if |b| < 4 then -1
    else 262144 * At(b, 0, 0xF0) + 4096 * At(b, 1, 0x80) + 64 * At(b, 2, 0x80) + At(b, 3, 0x80)
  }

  function At(b: seq<byte>, i: nat, base: int): int
    requires i < |b|
  {
    var v: int := b[i];
    v - base
  }

  lemma Utf8Lead(n: nat, rest: seq<byte>)
    requires n < 0x110000 && n != 0x5C
    ensures Lead(Utf8(n) + rest) == n
  {
    var b := Utf8(n) + rest;
    assert forall i | 0 <= i < |Utf8(n)| :: b[i] == Utf8(n)[i];
    if 0x80 <= n < 0x800 {
      assert n == 64 * (n / 64) + n % 64;
    } else if 0x800 <= n < 0x10000 {
      assert n / 64 == 64 * (n / 4096) + n / 64 % 64;
    } else if 0x10000 <= n {
      assert n / 64 == 64 * (n / 4096) + n / 64 % 64;
      assert n / 4096 == 64 * (n / 262144) + n / 4096 % 64;
    }
  }

  lemma EscapeLead(n: nat, rest: seq<byte>)
    requires n < 0x10000
    ensures Lead(Escape4(n) + rest) == n
  {
    var b := Escape4(n) + rest;
    assert forall i | 0 <= i < 6 :: b[i] == Escape4(n)[i];
    assert n / 16 == 16 * (n / 256) + n / 16 % 16;
    assert n / 256 == 16 * (n / 4096) + n / 256 % 16;
    assert forall k: nat | k < 16 :: UnhexByte(HexByte(k)) == k;
  }

  lemma ChunkLead(c: char, rest: seq<byte>)
    ensures Lead(Chunk(c) + rest) == c as int
  {
    var n := c as int;
    if ShortEscape(n) != 0 {
      assert (Chunk(c) + rest)[..2] == Chunk(c);
    } else if LongEscape(n) {
      EscapeLead(n, rest);
    } else {
      Utf8Lead(n, rest);
    }
  }

  /** No control character, and none of the three a browser would read as markup. */
  ghost predicate Plain(b: byte) { b >= 0x20 && b != 0x3C && b != 0x3E && b != 0x26 }

  ghost predicate AllPlain(s: seq<byte>) { forall i :: 0 <= i < |s| ==> Plain(s[i]) }

  /** No character's text holds a bare quote in front or anything that is not plain. */
  lemma ChunkPlain(c: char)
    ensures Chunk(c)[0] != QUOTE && AllPlain(Chunk(c))
  {
  }

  function Body(s: string): seq<byte> {
    if s == [] then [] else Chunk(s[0]) + Body(s[1..])
  }

  function Quote(s: string): seq<byte> { [QUOTE] + Body(s) + [QUOTE] }

  /** A quoted string ends where it ends, whatever follows it. */
  lemma {:induction false} BodyUnique(s: string, t: string, x: seq<byte>, y: seq<byte>)
    requires Body(s) + ([QUOTE] + x) == Body(t) + ([QUOTE] + y)
    ensures s == t && x == y
    decreases |s| + |t|
  {
    BodyFirst(s, x);
    BodyFirst(t, y);
    if s == [] || t == [] {
      Parts([QUOTE], x);
      Parts([QUOTE], y);
    } else {
      var p, q := Body(s[1..]) + ([QUOTE] + x), Body(t[1..]) + ([QUOTE] + y);
      ChunkLead(s[0], p);
      ChunkLead(t[0], q);
      Parts(Chunk(s[0]), p);
      Parts(Chunk(t[0]), q);
      BodyUnique(s[1..], t[1..], x, y);
    }
  }

  /** The first byte tells an ended string from one that goes on. */
  lemma BodyFirst(s: string, x: seq<byte>)
    ensures s == [] ==> Body(s) + ([QUOTE] + x) == [QUOTE] + x
    ensures s != [] ==> Body(s) + ([QUOTE] + x) == Chunk(s[0]) + (Body(s[1..]) + ([QUOTE] + x))
    ensures s == [] <==> (Body(s) + ([QUOTE] + x))[0] == QUOTE
  {
    if s != [] {
      Assoc(Chunk(s[0]), Body(s[1..]), [QUOTE] + x);
      Parts(Chunk(s[0]), Body(s[1..]) + ([QUOTE] + x));
      ChunkPlain(s[0]);
    }
  }

  lemma QuoteUnique(s: string, t: string, x: seq<byte>, y: seq<byte>)
    requires Quote(s) + x == Quote(t) + y
    ensures s == t && x == y
  {
    QuoteOpens(s, x);
    QuoteOpens(t, y);
    BodyUnique(s, t, x, y);
  }

  lemma QuoteOpens(s: string, x: seq<byte>)
    ensures (Quote(s) + x)[1..] == Body(s) + ([QUOTE] + x)
    ensures (Quote(s) + x)[0] == QUOTE
  {
  }

  lemma {:induction false} QuotePlain(s: string)
    ensures AllPlain(Quote(s))
  {
    BodyPlain(s);
  }

  lemma {:induction false} BodyPlain(s: string)
    ensures AllPlain(Body(s))
  {
    if s != [] {
      ChunkPlain(s[0]);
      BodyPlain(s[1..]);
    }
  }

  /** The member values the preimages hold. */
  datatype Value = Str(s: string) | Num(n: nat)

  /** A number as encoding/json prints it: its decimal digits, a byte each. */
  function Numeral(n: nat): (b: seq<byte>)
    ensures |b| >= 1 && forall i :: 0 <= i < |b| ==> 0x30 <= b[i] <= 0x39
  {
    var s := Decimal.Print(n);
    Decimal.DigitsAt(s);
    seq(|s|, i requires 0 <= i < |s| => 0x30 + Decimal.DigitValue(s[i]))
  }

  lemma NumeralInjective(n: nat, m: nat)
    requires Numeral(n) == Numeral(m)
    ensures n == m
  {
    var s, t := Decimal.Print(n), Decimal.Print(m);
    Decimal.DigitsAt(s);
    Decimal.DigitsAt(t);
    forall i | 0 <= i < |s| ensures s[i] == t[i] {
      assert Numeral(n)[i] == Numeral(m)[i];
    }
    assert s == t;
    Decimal.ValueOfPrint(n);
    Decimal.ValueOfPrint(m);
  }

  function Print(v: Value): seq<byte> {
    match v
    case Str(s) => Quote(s)
    case Num(n) => Numeral(n)
  }

  /** What follows a member: a comma or the closing brace. */
  ghost predicate Follows(x: seq<byte>) { x != [] && (x[0] == 0x2C || x[0] == 0x7D) }

  /** How many digits a text begins with. */
  function DigitRun(b: seq<byte>): nat {
    if b != [] && 0x30 <= b[0] <= 0x39 then 1 + DigitRun(b[1..]) else 0
  }

  lemma {:induction false} DigitRunOf(a: seq<byte>, x: seq<byte>)
    requires Follows(x) && forall i :: 0 <= i < |a| ==> 0x30 <= a[i] <= 0x39
    ensures DigitRun(a + x) == |a|
  {
    if a == [] {
      assert a + x == x;
    } else {
      assert (a + x)[1..] == a[1..] + x;
      DigitRunOf(a[1..], x);
    }
  }

  lemma NumeralUnique(n: nat, m: nat, x: seq<byte>, y: seq<byte>)
    requires Follows(x) && Follows(y) && Numeral(n) + x == Numeral(m) + y
    ensures n == m && x == y
  {
    DigitRunOf(Numeral(n), x);
    DigitRunOf(Numeral(m), y);
    Parts(Numeral(n), x);
    Parts(Numeral(m), y);
    NumeralInjective(n, m);
  }

  lemma PrintUnique(v: Value, w: Value, x: seq<byte>, y: seq<byte>)
    requires Follows(x) && Follows(y) && Print(v) + x == Print(w) + y
    ensures v == w && x == y
  {
    Parts(Print(v), x);
    Parts(Print(w), y);
    match (v, w)
    case (Str(s), Str(t)) => QuoteUnique(s, t, x, y);
    case (Num(n), Num(m)) => NumeralUnique(n, m, x, y);
    case _ =>
  }

  datatype Member = Member(key: string, value: Value)

  function Entry(key: string, value: string): Member { Member(key, Str(value)) }

  function PrintMember(m: Member): seq<byte> { Quote(m.key) + [0x3A] + Print(m.value) }

  function Members(ms: seq<Member>): seq<byte>
    requires |ms| >= 1
  {
    PrintMember(ms[0]) + if |ms| == 1 then [0x7D] else [0x2C] + Members(ms[1..])
  }

  /** A flat object with its members in the order given. */
  function Object(ms: seq<Member>): seq<byte>
    requires |ms| >= 1
  {
    [0x7B] + Members(ms)
  }

  lemma MemberUnique(m: Member, k: Member, x: seq<byte>, y: seq<byte>)
    requires Follows(x) && Follows(y) && PrintMember(m) + x == PrintMember(k) + y
    ensures m == k && x == y
  {
    MemberOpens(m, x);
    MemberOpens(k, y);
    var p, q := [0x3A] + (Print(m.value) + x), [0x3A] + (Print(k.value) + y);
    QuoteUnique(m.key, k.key, p, q);
    Parts([0x3A], Print(m.value) + x);
    Parts([0x3A], Print(k.value) + y);
    PrintUnique(m.value, k.value, x, y);
  }

  lemma MemberOpens(m: Member, x: seq<byte>)
    ensures PrintMember(m) + x == Quote(m.key) + ([0x3A] + (Print(m.value) + x))
  {
    var q, v := Quote(m.key), Print(m.value);
    Assoc(q, [0x3A], v);
    Assoc(q, [0x3A] + v, x);
    Assoc([0x3A], v, x);
  }

  /** What stands behind the first member. */
  function Behind(ms: seq<Member>, x: seq<byte>): seq<byte>
    requires |ms| >= 1
  {
    if |ms| == 1 then [0x7D] + x else [0x2C] + (Members(ms[1..]) + x)
  }

  lemma MembersOpen(ms: seq<Member>, x: seq<byte>)
    requires |ms| >= 1
    ensures Members(ms) + x == PrintMember(ms[0]) + Behind(ms, x)
    ensures Follows(Behind(ms, x)) && (|ms| == 1 <==> Behind(ms, x)[0] == 0x7D)
  {
    if |ms| == 1 {
      Assoc(PrintMember(ms[0]), [0x7D], x);
      Parts([0x7D], x);
    } else {
      Assoc(PrintMember(ms[0]), [0x2C] + Members(ms[1..]), x);
      Assoc([0x2C], Members(ms[1..]), x);
      Parts([0x2C], Members(ms[1..]) + x);
    }
  }

  lemma {:induction false} MembersUnique(ms: seq<Member>, ks: seq<Member>, x: seq<byte>, y: seq<byte>)
    requires |ms| >= 1 && |ks| >= 1 && Members(ms) + x == Members(ks) + y
    ensures ms == ks && x == y
    decreases |ms|
  {
    MembersOpen(ms, x);
    MembersOpen(ks, y);
    MemberUnique(ms[0], ks[0], Behind(ms, x), Behind(ks, y));
    if |ms| == 1 {
      Parts([0x7D], x);
      Parts([0x7D], y);
    } else {
      Parts([0x2C], Members(ms[1..]) + x);
      Parts([0x2C], Members(ks[1..]) + y);
      MembersUnique(ms[1..], ks[1..], x, y);
      assert ms == [ms[0]] + ms[1..] && ks == [ks[0]] + ks[1..];
    }
  }

  /** What is printed can be put into a log line or a page: all of it is plain. */
  lemma {:induction false} MembersPlain(ms: seq<Member>)
    requires |ms| >= 1
    ensures AllPlain(Members(ms))
  {
    MemberPlain(ms[0]);
    if |ms| > 1 { MembersPlain(ms[1..]); }
  }

  lemma MemberPlain(m: Member)
    ensures AllPlain(PrintMember(m))
  {
    QuotePlain(m.key);
    if m.value.Str? { QuotePlain(m.value.s); }
  }

  /** An object's text determines its members, keys and values alike, even in
      front of any other bytes. */
  lemma ObjectUnique(ms: seq<Member>, ks: seq<Member>, x: seq<byte>, y: seq<byte>)
    requires |ms| >= 1 && |ks| >= 1 && Object(ms) + x == Object(ks) + y
    ensures ms == ks && x == y
  {
    Assoc([0x7B], Members(ms), x);
    Assoc([0x7B], Members(ks), y);
    Parts([0x7B], Members(ms) + x);
    Parts([0x7B], Members(ks) + y);
    MembersUnique(ms, ks, x, y);
  }

  lemma ObjectInjective(ms: seq<Member>, ks: seq<Member>)
    requires |ms| >= 1 && |ks| >= 1
    ensures Object(ms) == Object(ks) <==> ms == ks
  {
    if Object(ms) == Object(ks) {
      assert Object(ms) + [] == Object(ks) + [];
      ObjectUnique(ms, ks, [], []);
    }
  }

  /** The preimage of a bound request: the binding, a newline, the caller's
      exact bytes. */
  function BoundPreimage(ms: seq<Member>, raw: seq<byte>): seq<byte>
    requires |ms| >= 1
  {
    Object(ms) + [NEWLINE] + raw
  }

  /** The preimage is uniquely decodable, and its first newline is where the
      caller's bytes begin. */
  lemma BoundPreimageUnique(ms: seq<Member>, ks: seq<Member>, raw: seq<byte>, other: seq<byte>)
    requires |ms| >= 1 && |ks| >= 1
    ensures BoundPreimage(ms, raw) == BoundPreimage(ks, other) <==> ms == ks && raw == other
  {
    Assoc(Object(ms), [NEWLINE], raw);
    Assoc(Object(ks), [NEWLINE], other);
    if BoundPreimage(ms, raw) == BoundPreimage(ks, other) {
      ObjectUnique(ms, ks, [NEWLINE] + raw, [NEWLINE] + other);
      Parts([NEWLINE], raw);
      Parts([NEWLINE], other);
    }
  }

  lemma FirstNewline(ms: seq<Member>, raw: seq<byte>)
    requires |ms| >= 1
    ensures var p := BoundPreimage(ms, raw);
      p[|Object(ms)|] == NEWLINE && AllPlain(p[..|Object(ms)|]) && p[|Object(ms)| + 1..] == raw
  {
    MembersPlain(ms);
    assert AllPlain(Object(ms));
    Assoc(Object(ms), [NEWLINE], raw);
    Parts(Object(ms), [NEWLINE] + raw);
    Parts(Object(ms) + [NEWLINE], raw);
  }
}
