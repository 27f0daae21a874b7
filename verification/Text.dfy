/** Strings as the sidecar's Go code cuts them: `strings.Split`, `strings.Cut`
    and `strings.TrimSpace`, with the laws the parsers rely on. */
module Text {

  /** The text does not hold the character. */
  ghost predicate Lacks(s: string, c: char) { forall i :: 0 <= i < |s| ==> s[i] != c }

  /** Where the first `c` stands, or |s| when there is none. */
  function IndexOf(s: string, c: char): (i: nat)
    ensures i <= |s|
    ensures i < |s| ==> s[i] == c
  {
    if s == [] || s[0] == c then 0 else 1 + IndexOf(s[1..], c)
  }

  lemma {:induction false} IndexOfIsFirst(s: string, c: char)
    ensures forall j :: 0 <= j < IndexOf(s, c) ==> s[j] != c
  {
    if s != [] && s[0] != c {
      IndexOfIsFirst(s[1..], c);
      forall j | 0 <= j < IndexOf(s, c) ensures s[j] != c {
        if j > 0 { assert s[j] == s[1..][j - 1]; }
      }
    }
  }

  /** A text without the separator in front of it pins the place of the cut. */
  lemma {:induction false} IndexOfAt(before: string, c: char, after: string)
    requires Lacks(before, c)
    ensures IndexOf(before + [c] + after, c) == |before|
  {
    if before != [] {
      assert (before + [c] + after)[0] == before[0];
      assert (before + [c] + after)[1..] == before[1..] + [c] + after;
      IndexOfAt(before[1..], c, after);
    }
  }

  lemma {:induction false} IndexOfNone(s: string, c: char)
    requires Lacks(s, c)
    ensures IndexOf(s, c) == |s|
  {
    if s != [] {
      IndexOfNone(s[1..], c);
    }
  }

  /** How many characters stand behind the last `c`. */
  function Tail(s: string, c: char): (n: nat)
    ensures n <= |s|
  {
    if s == [] || s[|s| - 1] == c then 0 else 1 + Tail(s[..|s| - 1], c)
  }

  lemma {:induction false} TailAt(before: string, c: char, after: string)
    requires Lacks(after, c)
    ensures Tail(before + [c] + after, c) == |after|
  {
    var s := before + [c] + after;
    if after == [] {
      assert s[|s| - 1] == c;
    } else {
      assert s[|s| - 1] == after[|after| - 1];
      assert s[..|s| - 1] == before + [c] + after[..|after| - 1];
      TailAt(before, c, after[..|after| - 1]);
    }
  }

  /** Texts without the separator behind the last cut are cut alike. */
  lemma CutFromTheRight(a: string, c: string, b: string, d: string, sep: char)
    requires Lacks(c, sep) && Lacks(d, sep) && a + [sep] + c == b + [sep] + d
    ensures a == b && c == d
  {
    TailAt(a, sep, c);
    TailAt(b, sep, d);
    var s, t := a + [sep] + c, b + [sep] + d;
    assert s[|a| + 1..] == c && t[|b| + 1..] == d;
    assert s[..|a|] == a && t[..|b|] == b;
  }

  /** How many `c` there are: `strings.Count` of a character. */
  function Count(s: string, c: char): nat { if s == [] then 0 else (if s[0] == c then 1 else 0) + Count(s[1..], c) }

  lemma {:induction false} CountOfConcat(a: string, b: string, c: char)
    ensures Count(a + b, c) == Count(a, c) + Count(b, c)
  {
    if a == [] {
      assert a + b == b;
    } else {
      assert (a + b)[0] == a[0] && (a + b)[1..] == a[1..] + b;
      CountOfConcat(a[1..], b, c);
    }
  }

  lemma {:induction false} CountZero(s: string, c: char)
    ensures Count(s, c) == 0 <==> Lacks(s, c)
  {
    if s != [] {
      CountZero(s[1..], c);
      assert forall i :: 1 <= i < |s| ==> s[i] == s[1..][i - 1];
    }
  }

  /** The part before the first `c`: the first result of `strings.Cut`. */
  function Before(s: string, c: char): string {
    s[..IndexOf(s, c)]
  }

  /** `strings.Split` by a one-character separator. */
  function Split(s: string, c: char): (parts: seq<string>)
    ensures |parts| >= 1
    decreases |s|
  {
    var i := IndexOf(s, c);
    if i == |s| then [s] else [s[..i]] + Split(s[i + 1..], c)
  }

  function Join(parts: seq<string>, c: char): string
    requires |parts| >= 1
  {
    if |parts| == 1 then parts[0] else parts[0] + ([c] + Join(parts[1..], c))
  }

  ghost predicate AllLack(parts: seq<string>, c: char) {
    forall k :: 0 <= k < |parts| ==> Lacks(parts[k], c)
  }

  lemma Rejoin(s: string, i: nat)
    requires i < |s|
    ensures s == s[..i] + ([s[i]] + s[i + 1..])
  {
  }

  lemma {:induction false} JoinOfSplit(s: string, c: char)
    ensures Join(Split(s, c), c) == s
    decreases |s|
  {
    var i := IndexOf(s, c);
    if i < |s| {
      var rest := Split(s[i + 1..], c);
      JoinOfSplit(s[i + 1..], c);
      FirstAndRest(s[..i], rest);
      Rejoin(s, i);
    }
  }

  lemma FirstAndRest<T>(first: T, rest: seq<T>)
    ensures ([first] + rest)[0] == first && ([first] + rest)[1..] == rest
  {
  }

  lemma RestLacks(parts: seq<string>, c: char)
    requires |parts| > 1 && AllLack(parts, c)
    ensures AllLack(parts[1..], c) && Lacks(parts[0], c) && parts == [parts[0]] + parts[1..]
  {
  }

  lemma SplitOfOne(s: string, c: char)
    requires Lacks(s, c)
    ensures Split(s, c) == [s]
  {
    IndexOfNone(s, c);
  }

  lemma {:induction false} SplitOfJoin(parts: seq<string>, c: char)
    requires |parts| >= 1 && AllLack(parts, c)
    ensures Split(Join(parts, c), c) == parts
  {
    if |parts| == 1 {
      SplitOfOne(parts[0], c);
    } else {
      RestLacks(parts, c);
      SplitOfJoin(parts[1..], c);
      SplitFirst(parts[0], Join(parts[1..], c), c);
    }
  }

  lemma SplitFirst(first: string, rest: string, c: char)
    requires Lacks(first, c)
    ensures Split(first + ([c] + rest), c) == [first] + Split(rest, c)
  {
    var s := first + ([c] + rest);
    assert s == first + [c] + rest;
    IndexOfAt(first, c, rest);
    assert s[..|first|] == first && s[|first| + 1..] == rest;
  }

  /** Unicode's White_Space characters: what `unicode.IsSpace` accepts. */
  predicate IsSpace(c: char) {
    var n := c as int;
    0x09 <= n <= 0x0D || n == 0x20 || n == 0x85 || n == 0xA0 || n == 0x1680 || 0x2000 <= n <= 0x200A
    || n == 0x2028 || n == 0x2029 || n == 0x202F || n == 0x205F || n == 0x3000
  }

  ghost predicate Blank(s: string) {
    forall i :: 0 <= i < |s| ==> IsSpace(s[i])
  }

  ghost predicate Trimmed(s: string) {
    s != [] ==> !IsSpace(s[0]) && !IsSpace(s[|s| - 1])
  }

  /** How many blanks a text begins and ends with. */
  function Leading(s: string): (n: nat)
    ensures n <= |s|
  {
    if s != [] && IsSpace(s[0]) then 1 + Leading(s[1..]) else 0
  }

  function Trailing(s: string): (n: nat)
    ensures n <= |s|
  {
    if s != [] && IsSpace(s[|s| - 1]) then 1 + Trailing(s[..|s| - 1]) else 0
  }

  /** `strings.TrimSpace`. */
  function TrimSpace(s: string): string {
    var l := s[Leading(s)..];
    l[..|l| - Trailing(l)]
  }

  lemma {:induction false} LeadingOf(left: string, rest: string)
    requires Blank(left) && (rest != [] ==> !IsSpace(rest[0]))
    ensures Leading(left + rest) == |left|
  {
    if left == [] {
      assert left + rest == rest;
    } else {
      assert (left + rest)[0] == left[0];
      assert (left + rest)[1..] == left[1..] + rest;
      LeadingOf(left[1..], rest);
    }
  }

  lemma {:induction false} TrailingOf(rest: string, right: string)
    requires Blank(right) && (rest != [] ==> !IsSpace(rest[|rest| - 1]))
    ensures Trailing(rest + right) == |right|
  {
    var s := rest + right;
    if right == [] {
      assert s == rest;
    } else {
      assert s[|s| - 1] == right[|right| - 1];
      assert s[..|s| - 1] == rest + right[..|right| - 1];
      TrailingOf(rest, right[..|right| - 1]);
    }
  }

  lemma BlankJoin(left: string, right: string)
    requires Blank(left) && Blank(right)
    ensures Blank(left + right)
  {
  }

  /** What TrimSpace computes is pinned by its outside: s without the blank
      text around it, and nothing more taken away. */
  lemma TrimSpaceSurrounded(left: string, core: string, right: string)
    requires Blank(left) && Blank(right) && Trimmed(core)
    ensures TrimSpace(left + core + right) == core
  {
    var s := left + core + right;
    if core == [] {
      assert s == (left + right) + [];
      BlankJoin(left, right);
      LeadingOf(left + right, []);
      assert s[|s|..] == [];
    } else {
      assert s == left + (core + right);
      assert (core + right)[0] == core[0];
      LeadingOf(left, core + right);
      assert s[|left|..] == core + right;
      TrailingOf(core, right);
      assert (core + right)[..|core|] == core;
    }
  }

  lemma {:induction false} LeadingIsBlank(s: string)
    ensures Blank(s[..Leading(s)])
    ensures Leading(s) < |s| ==> !IsSpace(s[Leading(s)])
  {
    if s != [] && IsSpace(s[0]) {
      LeadingIsBlank(s[1..]);
      forall i | 0 <= i < Leading(s) ensures IsSpace(s[i]) {
        if i > 0 { assert s[i] == s[1..][..Leading(s[1..])][i - 1]; }
      }
    }
  }

  lemma {:induction false} TrailingIsBlank(s: string)
    ensures Blank(s[|s| - Trailing(s)..])
    ensures Trailing(s) < |s| ==> !IsSpace(s[|s| - Trailing(s) - 1])
  {
    if s != [] && IsSpace(s[|s| - 1]) {
      var t := s[..|s| - 1];
      TrailingIsBlank(t);
      forall j | |s| - Trailing(s) <= j < |s| ensures IsSpace(s[j]) {
        if j < |t| { assert s[j] == t[|t| - Trailing(t)..][j - |t| + Trailing(t)]; }
      }
    }
  }

  /** Every text is blanks around a trimmed core. */
  lemma Surroundings(s: string) returns (left: string, core: string, right: string)
    ensures s == left + core + right
    ensures Blank(left) && Blank(right) && Trimmed(core)
  {
    LeadingIsBlank(s);
    var l := s[Leading(s)..];
    TrailingIsBlank(l);
    left, core, right := s[..Leading(s)], l[..|l| - Trailing(l)], l[|l| - Trailing(l)..];
    assert l == core + right;
    if core != [] {
      assert core[0] == s[Leading(s)];
      assert core[|core| - 1] == l[|l| - Trailing(l) - 1];
    }
  }
}
