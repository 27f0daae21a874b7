/** Exactly when a command id alone names its command. Attempt ids and the parts
    of a progress report may hold colons, and colons are what the ids are built
    with. */
module Aliasing {
  import opened Bytes
  import opened Commands
  import opened Text
  import Envelope

  // ---- Progress ids ----

  function Parted(node: string, round: string, state: string): string { node + [':'] + round + [':'] + state }

  lemma SameIdSameParts(a: string, i: Issue, j: Issue)
    requires i.Progress? && j.Progress?
    ensures CommandId(a, i) == CommandId(a, j) <==> Parted(i.node, i.round, i.state) == Parted(j.node, j.round, j.state)
  {
    assert Details(i) == Parted(i.node, i.round, i.state) && Details(j) == Parted(j.node, j.round, j.state);
    Parts(a, Suffix(i));
    Parts(a, Suffix(j));
    Parts(PROGRESS, Details(i));
    Parts(PROGRESS, Details(j));
  }

  lemma ColonsOf(node: string, round: string, state: string)
    ensures Count(Parted(node, round, state), ':') == 2 + Count(node, ':') + Count(round, ':') + Count(state, ':')
  {
    assert Count([':'], ':') == 1 + Count([], ':') by { assert [':'][1..] == []; }
    CountOfConcat(node + [':'] + round + [':'], state, ':');
    CountOfConcat(node + [':'] + round, [':'], ':');
    CountOfConcat(node + [':'], round, ':');
    CountOfConcat(node, [':'], ':');
  }

  ghost predicate ColonFree(node: string, round: string, state: string) {
    Lacks(node, ':') && Lacks(round, ':') && Lacks(state, ':')
  }

  lemma PartedSplits(node: string, round: string, state: string)
    requires ColonFree(node, round, state)
    ensures Split(Parted(node, round, state), ':') == [node, round, state]
  {
    Assoc(node + [':'] + round, [':'], state);
    Assoc(node + [':'], round, [':'] + state);
    Assoc(node, [':'], round + ([':'] + state));
    SplitFirst(node, round + ([':'] + state), ':');
    SplitFirst(round, state, ':');
    IndexOfNone(state, ':');
    assert Split(state, ':') == [state];
  }

  /** Parts without a colon are the only ones with their text. */
  lemma ColonFreePartsAreUnique(node: string, round: string, state: string, n: string, r: string, s: string)
    requires ColonFree(node, round, state) && Parted(node, round, state) == Parted(n, r, s)
    ensures n == node && r == round && s == state
  {
    ColonsOf(node, round, state);
    ColonsOf(n, r, s);
    CountZero(node, ':');
    CountZero(round, ':');
    CountZero(state, ':');
    CountZero(n, ':');
    CountZero(r, ':');
    CountZero(s, ':');
    PartedSplits(node, round, state);
    PartedSplits(n, r, s);
    assert [n, r, s][0] == node && [n, r, s][1] == round && [n, r, s][2] == state;
  }

  /** With a colon in any of the parts there are other parts with their text. */
  lemma OtherParts(node: string, round: string, state: string) returns (n: string, r: string, s: string)
    requires !ColonFree(node, round, state)
    ensures Parted(n, r, s) == Parted(node, round, state) && n != node
  {
    if !Lacks(state, ':') {
      var k :| 0 <= k < |state| && state[k] == ':';
      n, r, s := node + [':'] + round, state[..k], state[k + 1..];
      assert state == r + [':'] + s;
    } else if !Lacks(round, ':') {
      var k :| 0 <= k < |round| && round[k] == ':';
      n, r, s := node + [':'] + round[..k], round[k + 1..], state;
      assert round == round[..k] + [':'] + r;
    } else {
      var k :| 0 <= k < |node| && node[k] == ':';
      n, r, s := node[..k], node[k + 1..], round + [':'] + state;
      assert node == n + [':'] + r;
    }
  }

  /** Every progress report of the attempt under this id is of this node, round
      and state. */
  ghost predicate IdNamesParts(a: string, i: Issue)
    requires i.Progress?
  {
    forall j: Issue :: j.Progress? && CommandId(a, j) == CommandId(a, i) ==>
                         j.node == i.node && j.round == i.round && j.state == i.state
  }

  /** Over all arguments of Client.Progress, an id names the parts it is made of if
      and only if none of them holds a colon. */
  lemma ProgressIdsNameTheirPartsExactly(a: string, i: Issue)
    requires i.Progress?
    ensures IdNamesParts(a, i) <==> ColonFree(i.node, i.round, i.state)
  {
    if ColonFree(i.node, i.round, i.state) {
      forall j: Issue | j.Progress? && CommandId(a, j) == CommandId(a, i)
        ensures j.node == i.node && j.round == i.round && j.state == i.state
      {
        SameIdSameParts(a, i, j);
        ColonFreePartsAreUnique(i.node, i.round, i.state, j.node, j.round, j.state);
      }
    } else {
      var n, r, s := OtherParts(i.node, i.round, i.state);
      var j := Progress(i.instance, n, s, r, i.outcomeCode);
      SameIdSameParts(a, i, j);
      assert j.Progress? && CommandId(a, j) == CommandId(a, i);
    }
  }

  // The route bounds the parts, so not every argument of Progress is received.

  /** What the progress route lets through. */
  predicate Receivable(node: string, round: string, state: string) {
    && node != "" && Envelope.ByteLength(node) <= 32 && state != "" && Envelope.ByteLength(state) <= 32
    && Envelope.ByteLength(round) <= 20
  }

  /** Every report the route lets through under this id is of this node, round and
      state. */
  ghost predicate IdNamesReceived(a: string, i: Issue)
    requires i.Progress?
  {
    forall j: Issue :: j.Progress? && Receivable(j.node, j.round, j.state) && CommandId(a, j) == CommandId(a, i) ==>
                         j.node == i.node && j.round == i.round && j.state == i.state
  }

  /** Two colons that cut a text into receivable parts. */
  predicate Cuts(text: string, p: nat, q: nat) {
    && p < q < |text| && text[p] == ':' && text[q] == ':'
    && Receivable(text[..p], text[p + 1..q], text[q + 1..])
  }

  /** The text is cut in one place only. */
  ghost predicate CutOnlyAt(text: string, node: string, round: string) {
    forall p: nat, q: nat :: Cuts(text, p, q) ==> p == |node| && q == |node| + 1 + |round|
  }

  lemma PartsAreACut(node: string, round: string, state: string)
    requires Receivable(node, round, state)
    ensures Cuts(Parted(node, round, state), |node|, |node| + 1 + |round|)
    ensures var t, q := Parted(node, round, state), |node| + 1 + |round|;
      t[..|node|] == node && t[|node| + 1..q] == round && t[q + 1..] == state
  {
    var t, q := Parted(node, round, state), |node| + 1 + |round|;
    assert t[..|node|] == node && t[|node| + 1..q] == round && t[q + 1..] == state;
  }

  lemma ACutIsParts(text: string, p: nat, q: nat)
    requires Cuts(text, p, q)
    ensures Parted(text[..p], text[p + 1..q], text[q + 1..]) == text
  {
  }

  /** Of the reports the route lets through, an id names the parts of one if and
      only if no other two of its colons cut it into receivable parts. */
  lemma ReceivedIdsNameTheirPartsExactly(a: string, i: Issue)
    requires i.Progress? && Receivable(i.node, i.round, i.state)
    ensures IdNamesReceived(a, i) <==> CutOnlyAt(Parted(i.node, i.round, i.state), i.node, i.round)
  {
    if CutOnlyAt(Parted(i.node, i.round, i.state), i.node, i.round) {
      forall j: Issue | j.Progress? && Receivable(j.node, j.round, j.state) && CommandId(a, j) == CommandId(a, i)
        ensures j.node == i.node && j.round == i.round && j.state == i.state
      {
        OneCutOnePartition(a, i, j);
      }
    }
    if IdNamesReceived(a, i) {
      forall p: nat, q: nat | Cuts(Parted(i.node, i.round, i.state), p, q)
        ensures p == |i.node| && q == |i.node| + 1 + |i.round|
      {
        OnePartitionOneCut(a, i, p, q);
      }
    }
  }

  lemma OneCutOnePartition(a: string, i: Issue, j: Issue)
    requires i.Progress? && Receivable(i.node, i.round, i.state)
    requires CutOnlyAt(Parted(i.node, i.round, i.state), i.node, i.round)
    requires j.Progress? && Receivable(j.node, j.round, j.state) && CommandId(a, j) == CommandId(a, i)
    ensures j.node == i.node && j.round == i.round && j.state == i.state
  {
    SameIdSameParts(a, j, i);
    PartsAreACut(j.node, j.round, j.state);
    PartsAreACut(i.node, i.round, i.state);
  }

  lemma OnePartitionOneCut(a: string, i: Issue, p: nat, q: nat)
    requires i.Progress? && IdNamesReceived(a, i) && Cuts(Parted(i.node, i.round, i.state), p, q)
    ensures p == |i.node| && q == |i.node| + 1 + |i.round|
  {
    var t := Parted(i.node, i.round, i.state);
    ACutIsParts(t, p, q);
    var j := Progress(i.instance, t[..p], t[q + 1..], t[p + 1..q], i.outcomeCode);
    SameIdSameParts(a, j, i);
    assert j.Progress? && CommandId(a, j) == CommandId(a, i);
    assert |t[..p]| == p && |t[p + 1..q]| == q - p - 1;
  }

  /** Two reports the route lets through, of any attempt, with one id. */
  lemma ReceivedIdsAlias(a: string, instance: string, outcome: string) returns (i: Issue, j: Issue)
    ensures i == Progress(instance, "a:b", "d", "c", outcome) && j == Progress(instance, "a", "c:d", "b", outcome)
    ensures Receivable(i.node, i.round, i.state) && Receivable(j.node, j.round, j.state)
    ensures CommandId(a, i) == CommandId(a, j)
  {
    i, j := Progress(instance, "a:b", "d", "c", outcome), Progress(instance, "a", "c:d", "b", outcome);
    assert Parted("a:b", "c", "d") == "a:b:c:d" == Parted("a", "b", "c:d");
    SameIdSameParts(a, i, j);
    ShortAscii("a:b");
    ShortAscii("c:d");
    ShortAscii("a");
    ShortAscii("b");
    ShortAscii("c");
    ShortAscii("d");
  }

  lemma {:induction false} ShortAscii(s: string)
    requires forall i :: 0 <= i < |s| ==> s[i] as int < 0x80
    ensures Envelope.ByteLength(s) == |s|
  {
    if s != [] {
      ShortAscii(s[1..]);
    }
  }

  // ---- Ids of different attempts ----

  /** What an attempt id must add to another for their command ids to meet. */
  predicate Bridges(x: string) { x == ":fin" || ":fin:" <= x || x == ":progress" || ":progress:" <= x }

  predicate Extends(a: string, b: string) { a < b && Bridges(b[|a|..]) }

  ghost predicate ShareAnId(a: string, b: string) {
    exists i: Issue, j: Issue :: Issuable(i) && Issuable(j) && CommandId(a, i) == CommandId(b, j)
  }

  /** The two commands that meet behind a bridge. */
  lemma BehindABridge(x: string) returns (i: Issue, j: Issue)
    requires Bridges(x)
    ensures Issuable(i) && Issuable(j) && Suffix(i) == x + Suffix(j)
  {
    if x == ":fin" || ":fin:" <= x {
      i, j := BehindFin(x);
    } else {
      i, j := BehindProgress(x);
    }
  }

  lemma BehindFin(x: string) returns (i: Issue, j: Issue)
    requires x == ":fin" || ":fin:" <= x
    ensures Issuable(i) && Issuable(j) && Suffix(i) == x + Suffix(j)
  {
    j := Accept("", "", "");
    assert Suffix(j) == ":accept";
    var handle := (if x == ":fin" then "" else x[5..] + ":") + "accept";
    i := Finalize(handle, "");
    assert FIN + handle == x + ":accept";
  }

  lemma BehindProgress(x: string) returns (i: Issue, j: Issue)
    requires x == ":progress" || ":progress:" <= x
    ensures Issuable(i) && Issuable(j) && Suffix(i) == x + Suffix(j)
  {
    j := Finalize("r:s", "");
    var node := (if x == ":progress" then "" else x[10..] + ":") + "fin";
    i := Progress("", node, "s", "r", "");
    assert Details(i) == node + ":r:s";
    assert PROGRESS + (node + ":r:s") == x + ":fin:r:s";
    assert Suffix(j) == ":fin:r:s";
  }

  lemma FinalizeBridges(handle: string, n: nat)
    requires 1 <= n < |FIN + handle| && (FIN + handle)[n] == ':'
    ensures Bridges((FIN + handle)[..n])
  {
    var s := FIN + handle;
    assert s[0] == ':' && s[1] == 'f' && s[2] == 'i' && s[3] == 'n' && s[4] == ':';
    assert n >= 4;
    if n == 4 {
      assert s[..n] == ":fin";
    } else {
      assert s[..n][..5] == ":fin:";
    }
  }

  lemma ProgressBridges(details: string, n: nat)
    requires 1 <= n < |PROGRESS + details| && (PROGRESS + details)[n] == ':'
    ensures Bridges((PROGRESS + details)[..n])
  {
    var s := PROGRESS + details;
    assert forall k :: 0 <= k < 10 ==> s[k] == PROGRESS[k];
    assert PROGRESS[1] == 'p' && PROGRESS[2] == 'r' && PROGRESS[3] == 'o' && PROGRESS[4] == 'g' && PROGRESS[5] == 'r'
        && PROGRESS[6] == 'e' && PROGRESS[7] == 's' && PROGRESS[8] == 's';
    assert n >= 9;
    if n == 9 {
      assert s[..n] == ":progress";
    } else {
      assert s[..n][..10] == ":progress:";
    }
  }

  /** The letters every id has behind its attempt, by family. */
  predicate IdTail(t: string) {
    && |t| >= 7 && t[0] == ':'
    && (|| (t[1] == 'x' && t[5] == ':') || (t[1] == 'f' && t[4] == ':') || (t[1] == 'a' && t[2] == 'c' && |t| == 7)
        || (t[1] == 'p' && t[4] == 'g' && |t| > 9 && t[9] == ':'))
  }

  lemma TagLetters(tag: string, details: string)
    ensures forall k :: 0 <= k < |tag| ==> (tag + details)[k] == tag[k]
    ensures details != [] ==> (tag + details)[|tag|] == details[0]
  {
  }

  /** A finalize id may name no handle, so it alone may be shorter. */
  lemma SuffixIsIdTail(j: Issue)
    requires Issuable(j)
    ensures IdTail(Suffix(j)) || (j.Finalize? && |Suffix(j)| < 7 && Suffix(j)[1] == 'f' && Suffix(j)[4] == ':')
  {
    TagLetters(Tag(j), Details(j));
    SuffixTag(j);
    match j {
      case Transfer(class_, _, _, _) => assert |Details(j)| > 2 && Details(j)[0] == ':';
      case Finalize(_, _) => assert FIN[4] == ':';
      case Accept(_, _, _) => assert Suffix(j) == ":accept" && ":accept"[2] == 'c';
      case Progress(_, _, _, _, _) => assert PROGRESS[4] == 'g' && PROGRESS[9] == ':';
    }
  }

  /** What an id of the transfer family looks like behind its attempt: its three
      colons and the class in between. */
  ghost predicate TransferText(s: string, c: string) {
    && |s| == |c| + 39
    && (forall k :: 1 <= k < 5 ==> s[k] != ':')
    && (forall k :: 0 <= k < |c| ==> s[6 + k] == c[k] != ':')
    && (forall k :: 7 + |c| <= k < |s| ==> s[k] != ':')
  }

  lemma TextShape(c: string, p: string)
    requires Lacks(c, ':') && Lacks(p, ':') && |p| == 32
    ensures TransferText(XFER + ([':'] + c + [':'] + p), c)
  {
    var tail := [':'] + c + [':'] + p;
    var s := XFER + tail;
    assert forall k :: 0 <= k < 5 ==> s[k] == XFER[k];
    assert XFER[1] == 'x' && XFER[2] == 'f' && XFER[3] == 'e' && XFER[4] == 'r';
    assert forall k :: 0 <= k < |c| ==> s[6 + k] == tail[1 + k] == c[k];
    forall k | 7 + |c| <= k < |s| ensures s[k] != ':' {
      assert s[k] == tail[k - 5] == p[k - 7 - |c|];
    }
  }

  lemma TransferShape(i: Issue)
    requires i.Transfer? && Issuable(i)
    ensures TransferText(Suffix(i), i.class_)
  {
    PrefixHasNoColon(i);
    TextShape(i.class_, DigestPrefix(i.digest));
  }

  lemma AcceptHasOneColon(i: Issue, n: nat)
    requires i.Accept? && 1 <= n < |Suffix(i)|
    ensures Suffix(i)[n] != ':'
  {
    assert Suffix(i) == ":accept";
  }

  lemma ClassLetters(c: string)
    requires KnownClass(c)
    ensures |c| >= 3 && c[0] != 'x' && c[0] != 'f' && (c[0] == 'a' ==> c[1] != 'c') && (c[0] == 'p' ==> |c| > 3 && c[3] != 'g')
  {
  }

  /** Behind its first colon such a text begins like no id, behind its second it
      has no further colon, and elsewhere it has none to begin with. */
  lemma NoTailIsAnId(s: string, c: string, n: nat)
    requires TransferText(s, c) && KnownClass(c) && 1 <= n <= |s|
    ensures !IdTail(s[n..]) && !(|s[n..]| >= 5 && s[n..][0] == ':' && s[n..][1] == 'f' && s[n..][4] == ':')
  {
    var rest := s[n..];
    ClassLetters(c);
    assert forall k :: 0 <= k < |rest| ==> rest[k] == s[n + k];
    if n == 5 {
      assert rest[1] == c[0] && rest[2] == c[1] && (|c| > 3 ==> rest[4] == c[3]);
    } else if 6 <= n < 6 + |c| {
      assert s[6 + (n - 6)] == c[n - 6];
    } else if n == 6 + |c| {
      assert |rest| == 33;
      assert rest[4] != ':' && rest[5] != ':' && rest[9] != ':';
    }
  }

  /** No id of the transfer family ends with another id. */
  lemma TransfersDoNotBridge(i: Issue, n: nat, j: Issue)
    requires i.Transfer? && Issuable(i) && Issuable(j) && 1 <= n <= |Suffix(i)|
    ensures Suffix(i)[n..] != Suffix(j)
  {
    TransferShape(i);
    SuffixIsIdTail(j);
    SuffixTag(j);
    NoTailIsAnId(Suffix(i), i.class_, n);
  }

  lemma LongerFront(a: string, s: string, b: string, t: string) returns (n: nat)
    requires a + s == b + t && |a| < |b| && t != [] && t[0] == ':'
    ensures 1 <= n < |s| && b == a + s[..n] && s[n..] == t && s[n] == ':'
  {
    n := |b| - |a|;
    var id := a + s;
    assert id == b + t;
    assert a == id[..|a|] && b == id[..|b|] && s == id[|a|..] && t == id[|b|..];
  }

  lemma ExtendsBy(a: string, b: string, x: string)
    requires b == a + x && x != [] && Bridges(x)
    ensures Extends(a, b)
  {
    assert b[..|a|] == a && b[|a|..] == x;
  }

  /** Where an id of the first attempt may be cut: behind a bridge. */
  lemma CutBridges(i: Issue, n: nat, j: Issue)
    requires Issuable(i) && Issuable(j) && 1 <= n < |Suffix(i)| && Suffix(i)[n..] == Suffix(j) && Suffix(i)[n] == ':'
    ensures Bridges(Suffix(i)[..n])
  {
    match i {
      case Transfer(_, _, _, _) => TransfersDoNotBridge(i, n, j);
      case Finalize(handle, _) => FinalizeBridges(handle, n);
      case Accept(_, _, _) => AcceptHasOneColon(i, n);
      case Progress(_, _, _, _, _) => ProgressBridges(Details(i), n);
    }
  }

  /** A shared id is cut where the longer attempt ends. */
  lemma SharedIdBridges(a: string, i: Issue, b: string, j: Issue)
    requires Issuable(i) && Issuable(j) && CommandId(a, i) == CommandId(b, j) && |a| < |b|
    ensures Extends(a, b)
  {
    SuffixTag(j);
    var n := LongerFront(a, Suffix(i), b, Suffix(j));
    CutBridges(i, n, j);
    ExtendsBy(a, b, Suffix(i)[..n]);
  }

  lemma ExtensionsShareAnId(a: string, b: string)
    requires Extends(a, b)
    ensures ShareAnId(a, b)
  {
    var i, j := BehindABridge(b[|a|..]);
    assert b == a + b[|a|..];
    Assoc(a, b[|a|..], Suffix(j));
    assert CommandId(a, i) == CommandId(b, j);
  }

  lemma SharingIsSymmetric(a: string, b: string)
    requires ShareAnId(a, b)
    ensures ShareAnId(b, a)
  {
    var i: Issue, j: Issue :| Issuable(i) && Issuable(j) && CommandId(a, i) == CommandId(b, j);
    assert Issuable(j) && Issuable(i) && CommandId(b, j) == CommandId(a, i);
  }

  /** Two attempts have commands of one id if and only if one attempt's id goes
      on, behind the other's, with one of the two bridges. */
  lemma AttemptsShareAnIdExactly(a: string, b: string)
    requires a != b
    ensures ShareAnId(a, b) <==> Extends(a, b) || Extends(b, a)
  {
    if ShareAnId(a, b) {
      var i: Issue, j: Issue :| Issuable(i) && Issuable(j) && CommandId(a, i) == CommandId(b, j);
      if |a| < |b| {
        SharedIdBridges(a, i, b, j);
      } else if |b| < |a| {
        SharedIdBridges(b, j, a, i);
      } else {
        Parts(a, Suffix(i));
        Parts(b, Suffix(j));
      }
    }
    if Extends(a, b) {
      ExtensionsShareAnId(a, b);
    }
    if Extends(b, a) {
      ExtensionsShareAnId(b, a);
      SharingIsSymmetric(b, a);
    }
  }

  lemma ExtensionsHaveAColon(a: string, b: string)
    requires Extends(a, b)
    ensures !Lacks(b, ':')
  {
    assert b[|a|] == b[|a|..][0] == ':';
  }

  /** Attempt ids without a colon share no command id. */
  lemma ColonFreeAttemptsNeverAlias(a: string, b: string)
    requires a != b && Lacks(a, ':') && Lacks(b, ':')
    ensures !ShareAnId(a, b)
  {
    AttemptsShareAnIdExactly(a, b);
    if Extends(a, b) {
      ExtensionsHaveAColon(a, b);
    } else if Extends(b, a) {
      ExtensionsHaveAColon(b, a);
    }
  }

  /** The envelope takes both ids: every attempt id short enough to be gone on
      with has another behind it that shares a command id with it. */
  lemma AttemptsAlias(a: string) returns (b: string)
    requires Envelope.Id(a) && |a| <= 124
    ensures Envelope.Id(b) && a != b && ShareAnId(a, b)
  {
    b := a + ":fin";
    assert b[|a|..] == ":fin" && b[..|a|] == a;
    assert forall k :: 0 <= k < |b| ==> b[k] == if k < |a| then a[k] else ":fin"[k - |a|];
    ExtensionsShareAnId(a, b);
  }
}
