/** The workload identity of a peer: which URI records are one, and the round
    trip with the printed form. */
module Spiffe {
  import opened Outcomes
  import opened Text
  import Bytes
  import Envelope

  datatype Principal = Principal(trustDomain: string, namespace: string, serviceAccount: string)

  /** Go's url.URL, the fields the parser looks at. */
  datatype Url = Url(scheme: string, opaqueData: string, user: Option<string>, host: string, path: string,
                     rawQuery: string, fragment: string)

  datatype Refusal = NoUri | NotAnIdentity | BadTrustDomain | BadPath | NoCertificate | WrongCount(n: nat)

  predicate Digits(s: string) { forall i :: 0 <= i < |s| ==> '0' <= s[i] <= '9' }

  /** URL.Port: what stands behind the last colon of the host, if digits. */
  function Port(host: string): string {
    if Tail(host, ':') == |host| || !Digits(host[|host| - Tail(host, ':')..]) then ""
    else host[|host| - Tail(host, ':')..]
  }

  /** Labels with dots in between: a lowercase DNS name. */
  predicate ValidTrustDomain(s: string) {
    var parts := Split(s, '.');
    forall i :: 0 <= i < |parts| ==> Envelope.Label(parts[i])
  }

  function Printed(p: Principal): string {
    "spiffe://" + p.trustDomain + "/ns/" + p.namespace + "/sa/" + p.serviceAccount
  }

  function ParseSPIFFE(u: Option<Url>): Result<Principal, Refusal> {
    if u.None? then Err(NoUri)
    else
      var v := u.value;
      if v.scheme != "spiffe" || v.user != None || v.opaqueData != "" || v.rawQuery != "" || v.fragment != ""
         || Port(v.host) != ""
      then Err(NotAnIdentity)
      else if !ValidTrustDomain(v.host) then Err(BadTrustDomain)
      else
        var parts := Split(v.path, '/');
        if |parts| != 5 || parts[0] != "" || parts[1] != "ns" || parts[3] != "sa" || !Envelope.Label(parts[2])
           || !Envelope.Label(parts[4])
        then Err(BadPath)
        else Ok(Principal(v.host, parts[2], parts[4]))
  }

  /** The single URI SAN of a verified leaf. */
  function PeerPrincipal(uris: Option<seq<Url>>): Result<Principal, Refusal> {
    if uris.None? then Err(NoCertificate)
    else if |uris.value| != 1 then Err(WrongCount(|uris.value|))
    else ParseSPIFFE(Some(uris.value[0]))
  }

  ghost predicate Valid(p: Principal) {
    ValidTrustDomain(p.trustDomain) && Envelope.Label(p.namespace) && Envelope.Label(p.serviceAccount)
  }

  function PathOf(p: Principal): string { "/ns/" + p.namespace + "/sa/" + p.serviceAccount }

  /** The record of the printed form. */
  function UrlOf(p: Principal): Url {
    Url("spiffe", "", None, p.trustDomain, PathOf(p), "", "")
  }

  /** A label has none of the characters with a meaning in the URI. */
  lemma LabelIsPlain(s: string, c: char)
    requires Envelope.Label(s) && !Envelope.IsLowerAlnum(c) && c != '-'
    ensures Lacks(s, c) && s != [c]
  {
  }

  /** A trust domain lacks whatever is neither of a label nor the dot. */
  lemma TrustDomainIsPlain(s: string, c: char)
    requires ValidTrustDomain(s) && !Envelope.IsLowerAlnum(c) && c != '-' && c != '.'
    ensures Lacks(s, c)
  {
    JoinOfSplit(s, '.');
    var parts := Split(s, '.');
    forall i | 0 <= i < |parts| ensures Lacks(parts[i], c) {
      LabelIsPlain(parts[i], c);
    }
    JoinLacks(parts, '.', c);
  }

  lemma {:induction false} JoinLacks(parts: seq<string>, sep: char, c: char)
    requires |parts| >= 1 && AllLack(parts, c) && c != sep
    ensures Lacks(Join(parts, sep), c)
  {
    assert Lacks(parts[0], c);
    if |parts| > 1 {
      var rest := parts[1..];
      forall k | 0 <= k < |rest| ensures Lacks(rest[k], c) { assert rest[k] == parts[k + 1]; }
      JoinLacks(rest, sep, c);
      LacksBoth(parts[0], [sep] + Join(rest, sep), c);
    }
  }

  lemma LacksBoth(a: string, b: string, c: char)
    requires Lacks(a, c) && Lacks(b, c)
    ensures Lacks(a + b, c)
  {
  }

  lemma {:induction false} TailOfLacks(s: string, c: char)
    requires Lacks(s, c)
    ensures Tail(s, c) == |s|
  {
    if s != [] {
      TailOfLacks(s[..|s| - 1], c);
    }
  }

  /** The trust domains are the labels joined by dots, any number but none; and
      none of them has a port. */
  lemma TrustDomainsAreJoinedLabels(s: string)
    ensures ValidTrustDomain(s) <==>
            exists parts :: |parts| >= 1 && (forall i :: 0 <= i < |parts| ==> Envelope.Label(parts[i])) && s == Join(parts, '.')
    ensures ValidTrustDomain(s) ==> Port(s) == ""
  {
    if parts :| |parts| >= 1 && (forall i :: 0 <= i < |parts| ==> Envelope.Label(parts[i])) && s == Join(parts, '.') {
      forall i | 0 <= i < |parts| ensures Lacks(parts[i], '.') {
        LabelIsPlain(parts[i], '.');
      }
      SplitOfJoin(parts, '.');
    }
    if ValidTrustDomain(s) {
      JoinOfSplit(s, '.');
      assert s == Join(Split(s, '.'), '.');
      TrustDomainIsPlain(s, ':');
      TailOfLacks(s, ':');
    }
  }

  function Segments(p: Principal): seq<string> { ["", "ns", p.namespace, "sa", p.serviceAccount] }

  lemma PathIsJoined(p: Principal)
    ensures Join(Segments(p), '/') == PathOf(p)
  {
    var s := Segments(p);
    assert s[1..] == ["ns", p.namespace, "sa", p.serviceAccount] && s[1..][1..] == [p.namespace, "sa", p.serviceAccount];
    assert s[1..][1..][1..] == ["sa", p.serviceAccount] && s[1..][1..][1..][1..] == [p.serviceAccount];
    assert Join(s[1..][1..][1..], '/') == "sa" + (['/'] + p.serviceAccount);
    assert Join(s[1..][1..], '/') == p.namespace + (['/'] + ("sa" + (['/'] + p.serviceAccount)));
    assert Join(s[1..], '/') == "ns" + (['/'] + (p.namespace + (['/'] + ("sa" + (['/'] + p.serviceAccount)))));
  }

  lemma PathSplits(p: Principal)
    requires Lacks(p.namespace, '/') && Lacks(p.serviceAccount, '/')
    ensures Split(PathOf(p), '/') == Segments(p)
  {
    PathIsJoined(p);
    SplitOfJoin(Segments(p), '/');
  }

  lemma FiveParts(parts: seq<string>, p: Principal)
    requires |parts| == 5 && parts[0] == "" && parts[1] == "ns" && parts[3] == "sa"
    requires parts[2] == p.namespace && parts[4] == p.serviceAccount
    ensures Join(parts, '/') == PathOf(p)
  {
    assert parts == Segments(p);
    PathIsJoined(p);
  }

  lemma AcceptedPath(u: Url)
    requires ParseSPIFFE(Some(u)).Ok?
    ensures var p := ParseSPIFFE(Some(u)).value; Valid(p) && u.host == p.trustDomain && u.path == PathOf(p)
  {
    JoinOfSplit(u.path, '/');
    FiveParts(Split(u.path, '/'), ParseSPIFFE(Some(u)).value);
  }

  /** The record has none of the parts a workload identity must not have. */
  predicate Plain(u: Url) {
    u.scheme == "spiffe" && u.user == None && u.opaqueData == "" && u.rawQuery == "" && u.fragment == ""
  }

  lemma AcceptedRecord(u: Url, p: Principal)
    requires Plain(u) && Valid(p) && u.host == p.trustDomain && u.path == PathOf(p)
    ensures ParseSPIFFE(Some(u)) == Ok(p)
  {
    LabelIsPlain(p.namespace, '/');
    LabelIsPlain(p.serviceAccount, '/');
    PathSplits(p);
    TrustDomainsAreJoinedLabels(p.trustDomain);
  }

  /** Print, then parse: every valid principal comes back. */
  lemma ParseOfPrinted(p: Principal)
    requires Valid(p)
    ensures ParseSPIFFE(Some(UrlOf(p))) == Ok(p)
  {
    AcceptedRecord(UrlOf(p), p);
  }

  /** Parse, then print: whatever is accepted has exactly the host and the path
      of a valid principal, and every such record is accepted. */
  lemma ParsedExactly(u: Url)
    ensures ParseSPIFFE(Some(u)).Ok? <==>
            Plain(u) && exists p :: Valid(p) && u.host == p.trustDomain && u.path == PathOf(p)
    ensures ParseSPIFFE(Some(u)).Ok? ==>
      var p := ParseSPIFFE(Some(u)).value; Valid(p) && u.host == p.trustDomain && u.path == PathOf(p)
  {
    if ParseSPIFFE(Some(u)).Ok? {
      AcceptedPath(u);
    }
    if p :| Plain(u) && Valid(p) && u.host == p.trustDomain && u.path == PathOf(p) {
      AcceptedRecord(u, p);
    }
  }

  lemma HostAndPath(a: string, x: string, b: string, y: string)
    requires Lacks(a, '/') && Lacks(b, '/') && a + ['/'] + x == b + ['/'] + y
    ensures a == b && x == y
  {
    IndexOfAt(a, '/', x);
    IndexOfAt(b, '/', y);
    var s := a + ['/'] + x;
    assert a == s[..|a|] && b == (b + ['/'] + y)[..|b|];
    assert x == s[|a| + 1..] && y == (b + ['/'] + y)[|b| + 1..];
  }

  lemma PathsAreInjective(p: Principal, q: Principal)
    requires Valid(p) && Valid(q) && PathOf(p) == PathOf(q)
    ensures p.namespace == q.namespace && p.serviceAccount == q.serviceAccount
  {
    LabelIsPlain(p.namespace, '/');
    LabelIsPlain(p.serviceAccount, '/');
    LabelIsPlain(q.namespace, '/');
    LabelIsPlain(q.serviceAccount, '/');
    PathSplits(p);
    PathSplits(q);
    assert Segments(p)[2] == Segments(q)[2] && Segments(p)[4] == Segments(q)[4];
  }

  lemma PrintedShape(p: Principal)
    ensures Printed(p) == "spiffe://" + (p.trustDomain + ['/'] + PathOf(p)[1..]) && PathOf(p) == ['/'] + PathOf(p)[1..]
  {
    assert Printed(p) == "spiffe://" + (p.trustDomain + PathOf(p));
  }

  /** The text names one principal. */
  lemma PrintedIsInjective(p: Principal, q: Principal)
    requires Valid(p) && Valid(q) && Printed(p) == Printed(q)
    ensures p == q
  {
    TrustDomainIsPlain(p.trustDomain, '/');
    TrustDomainIsPlain(q.trustDomain, '/');
    PrintedShape(p);
    PrintedShape(q);
    var s, t := p.trustDomain + ['/'] + PathOf(p)[1..], q.trustDomain + ['/'] + PathOf(q)[1..];
    assert s == ("spiffe://" + s)[9..] && t == ("spiffe://" + t)[9..];
    HostAndPath(p.trustDomain, PathOf(p)[1..], q.trustDomain, PathOf(q)[1..]);
    PathsAreInjective(p, q);
  }

  // ---- As written ----

  /** A URI as it stands in the certificate: scheme, authority and path, and the
      marks of an empty query and an empty fragment, where written. */
  datatype Written = Written(scheme: string, host: string, path: string, queryMark: bool, fragmentMark: bool)

  function TextOf(x: Written): string {
    x.scheme + "://" + x.host + x.path + (if x.queryMark then "?" else "") + if x.fragmentMark then "#" else ""
  }

  function ToLower(s: string): string { seq(|s|, i requires 0 <= i < |s| => LowerOf(s[i])) }

  function LowerOf(c: char): char { if 'A' <= c <= 'Z' then (c as int + 32) as char else c }

  /** url.PathUnescape: every `%XX` is one byte; a stray percent sign is an error.
      A byte above 0x7F is kept as a character of its own, which no label has. */
  function Unescape(s: string): Option<string> {
    if s == [] then Some([])
    else if s[0] != '%' then
      match Unescape(s[1..]) { case None => None case Some(t) => Some([s[0]] + t) }
    else if |s| < 3 || !Bytes.IsHex(s[1]) || !Bytes.IsHex(s[2]) then None
    else
      match Unescape(s[3..])
      case None => None
      case Some(t) => Some([(16 * Bytes.HexValue(s[1]) + Bytes.HexValue(s[2])) as char] + t)
  }

  /** What url.Parse makes of it: the scheme in lower case, the path decoded, the
      empty query and fragment as if not written. */
  function RecordOf(x: Written): Option<Url> {
    match Unescape(x.path)
    case None => None
    case Some(path) => Some(Url(ToLower(x.scheme), "", None, x.host, path, "", ""))
  }

  lemma {:induction false} UnescapePlain(s: string)
    ensures Lacks(s, '%') ==> Unescape(s) == Some(s)
    ensures !Lacks(s, '%') && Unescape(s).Some? ==> |Unescape(s).value| < |s|
    ensures Unescape(s).Some? ==> |Unescape(s).value| <= |s|
  {
    if s != [] {
      if s[0] != '%' {
        UnescapePlain(s[1..]);
        assert Lacks(s, '%') <==> Lacks(s[1..], '%') by {
          assert forall i :: 1 <= i < |s| ==> s[i] == s[1..][i - 1];
        }
        assert s == [s[0]] + s[1..];
      } else if |s| >= 3 {
        UnescapePlain(s[3..]);
      }
    }
  }

  function WrittenAs(p: Principal): Written { Written("spiffe", p.trustDomain, PathOf(p), false, false) }

  lemma TextOfPrinted(p: Principal)
    ensures TextOf(WrittenAs(p)) == Printed(p)
  {
    assert TextOf(WrittenAs(p)) == "spiffe" + "://" + p.trustDomain + PathOf(p) + "" + "";
  }

  /** The parser reads the decoded record, so it takes more texts than the printed
      one: what an accepted text says is its principal's printed form if and only
      if the scheme is in lower case, the path holds no percent sign and neither
      mark of an empty query or fragment is written. */
  lemma TextIsCanonicalExactly(x: Written)
    requires RecordOf(x).Some? && ParseSPIFFE(RecordOf(x)).Ok?
    ensures TextOf(x) == Printed(ParseSPIFFE(RecordOf(x)).value) <==>
            x.scheme == "spiffe" && Lacks(x.path, '%') && !x.queryMark && !x.fragmentMark
  {
    AcceptedPath(RecordOf(x).value);
    AcceptedText(x, ParseSPIFFE(RecordOf(x)).value);
  }

  lemma AcceptedText(x: Written, p: Principal)
    requires |x.scheme| == 6 && Unescape(x.path) == Some(PathOf(p)) && p.trustDomain == x.host && Valid(p)
    ensures TextOf(x) == Printed(p) <==> x.scheme == "spiffe" && Lacks(x.path, '%') && !x.queryMark && !x.fragmentMark
  {
    var marks := (if x.queryMark then "?" else "") + if x.fragmentMark then "#" else "";
    assert TextOf(x) == x.scheme + ("://" + x.host + (x.path + marks));
    TextOfPrinted(p);
    assert Printed(p) == "spiffe" + ("://" + x.host + PathOf(p));
    TextsAgree(x.scheme, "://" + x.host, x.path + marks, "spiffe", PathOf(p));
    assert PathOf(p)[|PathOf(p)| - 1] == p.serviceAccount[|p.serviceAccount| - 1];
    TailsAgree(x.path, marks, PathOf(p));
  }

  lemma TextsAgree(scheme: string, middle: string, tail: string, other: string, path: string)
    requires |scheme| == |other|
    ensures scheme + (middle + tail) == other + (middle + path) <==> scheme == other && tail == path
  {
    var s, t := scheme + (middle + tail), other + (middle + path);
    assert s[..|scheme|] == scheme && t[..|other|] == other;
    assert s[|scheme|..] == middle + tail && t[|other|..] == middle + path;
    assert (middle + tail)[|middle|..] == tail && (middle + path)[|middle|..] == path;
  }

  /** The path as written, with its marks, is the decoded path exactly if nothing
      was decoded and there is no mark. */
  lemma TailsAgree(written: string, marks: string, path: string)
    requires Unescape(written) == Some(path) && path != [] && path[|path| - 1] != '?' && path[|path| - 1] != '#'
    requires marks == "" || marks == "?" || marks == "#" || marks == "?#"
    ensures written + marks == path <==> Lacks(written, '%') && marks == ""
  {
    UnescapePlain(written);
    var t := written + marks;
    assert marks != "" ==> t[|t| - 1] == marks[|marks| - 1];
    assert marks == "" ==> t == written;
  }

  /** Every valid principal has such texts: with the scheme in capitals, with a
      letter of the path percent-encoded, and with either mark it is still taken
      for the same principal. */
  lemma OtherTextsAreTaken(p: Principal) returns (texts: seq<Written>)
    requires Valid(p)
    ensures |texts| == 4 && texts[0].scheme == "SPIFFE" && texts[1].path == "/%6Es/" + p.namespace + "/sa/" + p.serviceAccount
    ensures texts[2].queryMark && texts[3].fragmentMark
    ensures forall x :: x in texts ==> && RecordOf(x).Some? && ParseSPIFFE(RecordOf(x)) == Ok(p)
                                       && TextOf(x) != Printed(p)
  {
    var tail := "s/" + p.namespace + "/sa/" + p.serviceAccount;
    var x := WrittenAs(p);
    texts := [x.(scheme := "SPIFFE"), x.(path := "/%6E" + tail), x.(queryMark := true), x.(fragmentMark := true)];
    PathIsPlain(p);
    UnescapePlain(PathOf(p));
    EncodedPath(p, tail);
    assert ToLower("SPIFFE") == "spiffe" && ToLower("spiffe") == "spiffe";
    AcceptedRecord(UrlOf(p), p);
    forall y | y in texts ensures RecordOf(y).Some? && ParseSPIFFE(RecordOf(y)) == Ok(p) && TextOf(y) != Printed(p) {
      assert RecordOf(y) == Some(UrlOf(p));
      TextIsCanonicalExactly(y);
    }
  }

  lemma PathIsPlain(p: Principal)
    requires Valid(p)
    ensures Lacks(PathOf(p), '%')
  {
    LabelIsPlain(p.namespace, '%');
    LabelIsPlain(p.serviceAccount, '%');
    LacksBoth("/ns/", p.namespace, '%');
    LacksBoth("/ns/" + p.namespace, "/sa/", '%');
    LacksBoth("/ns/" + p.namespace + "/sa/", p.serviceAccount, '%');
  }

  /** An encoded character in front of plain text. */
  lemma UnescapeEncoded(a: char, b: char, tail: string)
    requires Bytes.IsHex(a) && Bytes.IsHex(b) && Lacks(tail, '%')
    ensures Unescape(['%', a, b] + tail) == Some([(16 * Bytes.HexValue(a) + Bytes.HexValue(b)) as char] + tail)
  {
    UnescapePlain(tail);
    assert (['%', a, b] + tail)[3..] == tail;
  }

  lemma UnescapeStep(c: char, rest: string)
    requires c != '%' && Unescape(rest).Some?
    ensures Unescape([c] + rest) == Some([c] + Unescape(rest).value)
  {
    assert ([c] + rest)[1..] == rest;
  }

  lemma EncodedLetter(tail: string)
    requires Lacks(tail, '%')
    ensures Unescape(['/'] + (['%', '6', 'E'] + tail)) == Some(['/'] + (['n'] + tail))
  {
    UnescapeEncoded('6', 'E', tail);
    UnescapeStep('/', ['%', '6', 'E'] + tail);
  }

  lemma EncodedPath(p: Principal, tail: string)
    requires Valid(p) && tail == "s/" + p.namespace + "/sa/" + p.serviceAccount
    ensures Unescape("/%6E" + tail) == Some(PathOf(p)) && !Lacks("/%6E" + tail, '%')
  {
    PathIsPlain(p);
    assert PathOf(p) == ['/'] + (['n'] + tail);
    assert forall i :: 0 <= i < |tail| ==> tail[i] == PathOf(p)[i + 2];
    EncodedLetter(tail);
    assert "/%6E" + tail == ['/'] + (['%', '6', 'E'] + tail);
    assert ("/%6E" + tail)[1] == '%';
  }

  /** No parsed principal is the wildcard entry of a policy. */
  lemma ParsedIsNoWildcard(u: Option<Url>)
    requires ParseSPIFFE(u).Ok?
    ensures ParseSPIFFE(u).value.namespace != "*" && ParseSPIFFE(u).value.serviceAccount != "*"
    ensures 1 <= |ParseSPIFFE(u).value.namespace| <= 63 && 1 <= |ParseSPIFFE(u).value.serviceAccount| <= 63
  {
    ParsedExactly(u.value);
    LabelIsPlain(ParseSPIFFE(u).value.namespace, '*');
    LabelIsPlain(ParseSPIFFE(u).value.serviceAccount, '*');
  }
}
