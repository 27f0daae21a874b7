/** The identities of the commands the sidecar sends to Control: an id that
    names the command within its attempt and a digest of what it says. Control
    answers a known id with the same digest as a repeat and one with another
    digest as a conflict. */
module Commands {
  import opened Bytes
  import opened Json
  import opened Text

  const ACTOR_ID := "anvilkit-job-access-sidecar"

  datatype Command = Command(tenantId: string, commandId: string, actorId: string, requestDigest: string)

  /** What a command says; the digests are `sha256:` texts. */
  datatype Issue =
    | Transfer(class_: string, digest: string, mediaType: string, size: nat)
    | Finalize(handle: string, objectVersion: string)
    | Accept(instance: string, digest: string, verdict: string)
    | Progress(instance: string, node: string, state: string, round: string, outcomeCode: string)

  /** The artifact classes and the verdicts the sidecar knows. */
  predicate KnownClass(c: string) {
    c == "prompt" || c == "brief" || c == "source" || c == "stage" || c == "result" || c == "evidence" || c == "answer"
    || c == "argument" || c == "npm" || c == "browser" || c == "css"
  }

  predicate KnownVerdict(v: string) {
    v == "certified" || v == "repairable" || v == "invalid" || v == "infrastructure_failed" || v == "canceled"
  }

  /** What the callers make sure of before a command exists: a class of the
      table and a digest as DigestOf prints it. */
  ghost predicate Issuable(i: Issue) {
    i.Transfer? ==> KnownClass(i.class_) && |i.digest| == 71 && Lacks(i.digest[7..], ':')
  }

  /** The first 32 hexadecimal characters of a digest. */
  function DigestPrefix(digest: string): string
    requires |digest| == 71
  {
    digest[7..39]
  }

  const XFER := ":xfer"
  const FIN := ":fin:"
  const ACCEPT := ":accept"
  const PROGRESS := ":progress:"

  /** How the ids of a family begin behind the attempt, and how they go on. */
  function Tag(i: Issue): string {
    match i
    case Transfer(_, _, _, _) => XFER
    case Finalize(_, _) => FIN
    case Accept(_, _, _) => ACCEPT
    case Progress(_, _, _, _, _) => PROGRESS
  }

  function Details(i: Issue): string
    requires Issuable(i)
  {
    match i
    case Transfer(class_, digest, _, _) => [':'] + class_ + [':'] + DigestPrefix(digest)
    case Finalize(handle, _) => handle
    case Accept(_, _, _) => ""
    case Progress(_, node, state, round, _) => node + [':'] + round + [':'] + state
  }

  function Suffix(i: Issue): string
    requires Issuable(i)
  {
    Tag(i) + Details(i)
  }

  function CommandId(attempt: string, i: Issue): string
    requires Issuable(i)
  {
    attempt + Suffix(i)
  }

  /** The members json.Marshal prints: a struct's in field order, a map's by
      key. */
  function Preimage(attempt: string, i: Issue): (ms: seq<Member>)
    ensures |ms| >= 1
  {
    match i
    case Transfer(class_, digest, mediaType, size) =>
      [Entry("Attempt", attempt), Entry("Class", class_), Entry("Digest", digest), Entry("MediaType", mediaType),
       Member("Size", Num(size))]
    case Finalize(handle, objectVersion) => [Entry("handle", handle), Entry("objectVersion", objectVersion)]
    case Accept(instance, digest, verdict) =>
      [Entry("attempt", attempt), Entry("digest", digest), Entry("instance", instance), Entry("verdict", verdict)]
    case Progress(instance, node, state, round, outcomeCode) =>
      [Entry("attempt", attempt), Entry("instance", instance), Entry("node", node), Entry("outcomeCode", outcomeCode),
       Entry("round", round), Entry("state", state)]
  }

  function CommandOf(h: Hash, tenant: string, attempt: string, i: Issue): Command
    requires Issuable(i)
  {
    Command(tenant, CommandId(attempt, i), ACTOR_ID, DigestOf(h, Object(Preimage(attempt, i))))
  }

  /** The digests and command identities as the actions use them: functions
      whose only link to SHA-256 and JSON is Prints. */
  datatype Scheme = Scheme(digest: seq<byte> -> string, command: (string, string, Issue) -> Command)

  ghost predicate Prints(k: Scheme, h: Hash) {
    && (forall b :: k.digest(b) == DigestOf(h, b))
    && (forall t, a, i :: Issuable(i) ==> k.command(t, a, i) == CommandOf(h, t, a, i))
  }

  /** Two different contents with one digest text. */
  ghost predicate DigestsCollide(k: Scheme, a: seq<byte>, b: seq<byte>) { a != b && k.digest(a) == k.digest(b) }

  /** Digest texts collide exactly where the hash does. */
  lemma DigestCollisionsAreHashCollisions(k: Scheme, h: Hash, a: seq<byte>, b: seq<byte>)
    requires Prints(k, h)
    ensures DigestsCollide(k, a, b) <==> Collide(h, a, b)
  {
    DigestOfTells(h, a, b);
  }

  lemma ClassesHaveNoColon(c: string)
    requires KnownClass(c)
    ensures Lacks(c, ':')
  {
  }

  lemma TransferIdShape(a: string, i: Issue)
    requires i.Transfer? && Issuable(i)
    ensures CommandId(a, i) == ((a + XFER) + [':'] + i.class_) + [':'] + DigestPrefix(i.digest)
  {
    var c, d := i.class_, DigestPrefix(i.digest);
    Assoc([':'] + c, [':'], d);
    Assoc(XFER, [':'] + c, [':'] + d);
    Assoc(a, XFER + ([':'] + c), [':'] + d);
    Assoc(a, XFER, [':'] + c);
    Assoc(a + XFER, [':'], c);
    Assoc(((a + XFER) + [':']) + c, [':'], d);
  }

  /** A transfer's id reads back from the right: the digest prefix, the class
      and even the attempt. */
  lemma TransferIdDecodes(a: string, i: Issue, b: string, j: Issue)
    requires i.Transfer? && j.Transfer? && Issuable(i) && Issuable(j)
    requires CommandId(a, i) == CommandId(b, j)
    ensures a == b && i.class_ == j.class_ && DigestPrefix(i.digest) == DigestPrefix(j.digest)
  {
    TransferIdShape(a, i);
    TransferIdShape(b, j);
    PrefixHasNoColon(i);
    PrefixHasNoColon(j);
    CutFromTheRight((a + XFER) + [':'] + i.class_, DigestPrefix(i.digest), (b + XFER) + [':'] + j.class_,
                    DigestPrefix(j.digest), ':');
    CutFromTheRight(a + XFER, i.class_, b + XFER, j.class_, ':');
    Parts(a, XFER);
    Parts(b, XFER);
    assert |a| == |b|;
  }

  lemma PrefixHasNoColon(i: Issue)
    requires i.Transfer? && Issuable(i)
    ensures Lacks(DigestPrefix(i.digest), ':') && Lacks(i.class_, ':')
  {
    ClassesHaveNoColon(i.class_);
    forall k | 0 <= k < 32 ensures DigestPrefix(i.digest)[k] != ':' {
      assert DigestPrefix(i.digest)[k] == i.digest[7..][k];
    }
  }

  lemma SuffixTag(i: Issue)
    requires Issuable(i)
    ensures Suffix(i)[0] == ':'
    ensures i.Transfer? ==> Suffix(i)[1] == 'x'
    ensures i.Finalize? ==> Suffix(i)[1] == 'f'
    ensures i.Accept? ==> Suffix(i)[1] == 'a'
    ensures i.Progress? ==> Suffix(i)[1] == 'p'
  {
    var tag := Tag(i);
    assert tag[0] == ':';
    assert Suffix(i)[0] == tag[0] && Suffix(i)[1] == tag[1];
  }

  /** Within one attempt the four families never share an id; a finalize id
      names its handle. */
  lemma FamiliesAreDisjoint(a: string, i: Issue, j: Issue)
    requires Issuable(i) && Issuable(j) && CommandId(a, i) == CommandId(a, j)
    ensures i.Transfer? <==> j.Transfer?
    ensures i.Finalize? <==> j.Finalize?
    ensures i.Accept? <==> j.Accept?
    ensures i.Progress? <==> j.Progress?
    ensures i.Finalize? ==> i.handle == j.handle
  {
    Parts(a, Suffix(i));
    Parts(a, Suffix(j));
    SuffixTag(i);
    SuffixTag(j);
    Parts(Tag(i), Details(i));
    Parts(Tag(j), Details(j));
  }

  /** The key of a command's first member tells the four families apart. */
  lemma PreimageFamilies(a: string, i: Issue, b: string, j: Issue)
    requires Preimage(a, i) == Preimage(b, j)
    ensures i == j && (!i.Finalize? ==> a == b)
  {
    var p, q := Preimage(a, i), Preimage(b, j);
    assert p[0].key[0] == q[0].key[0];
    assert |p| == |q|;
    match (i, j)
    case (Transfer(_, _, _, _), Transfer(_, _, _, _)) => assert p[1] == q[1] && p[2] == q[2] && p[3] == q[3] && p[4] == q[4];
    case (Finalize(_, _), Finalize(_, _)) => assert p[1] == q[1];
    case (Accept(_, _, _), Accept(_, _, _)) => assert p[1] == q[1] && p[2] == q[2] && p[3] == q[3];
    case (Progress(_, _, _, _, _), Progress(_, _, _, _, _)) =>
      assert p[1] == q[1] && p[2] == q[2] && p[3] == q[3] && p[4] == q[4] && p[5] == q[5];
    case _ =>
  }

  /** The pair of id and digest names one command of one attempt: two commands
      that differ in anything carry different ids, or meet as a conflict under
      different digests, never as a silent replay, unless their very preimages
      collide under the hash. */
  lemma CommandsNeverReplayAnother(h: Hash, tenant: string, a: string, i: Issue, b: string, j: Issue)
    requires Issuable(i) && Issuable(j)
    ensures CommandOf(h, tenant, a, i) == CommandOf(h, tenant, b, j) <==>
            (a == b && i == j)
            || (CommandId(a, i) == CommandId(b, j) && Collide(h, Object(Preimage(a, i)), Object(Preimage(b, j))))
  {
    DigestOfTells(h, Object(Preimage(a, i)), Object(Preimage(b, j)));
    SameIdSameObject(a, i, b, j);
  }

  lemma SameIdSameObject(a: string, i: Issue, b: string, j: Issue)
    requires Issuable(i) && Issuable(j)
    ensures CommandId(a, i) == CommandId(b, j) && Object(Preimage(a, i)) == Object(Preimage(b, j)) <==> a == b && i == j
  {
    ObjectInjective(Preimage(a, i), Preimage(b, j));
    if CommandId(a, i) == CommandId(b, j) && Preimage(a, i) == Preimage(b, j) {
      SameIdSamePreimage(a, i, b, j);
    }
  }

  lemma SameIdSamePreimage(a: string, i: Issue, b: string, j: Issue)
    requires Issuable(i) && Issuable(j) && CommandId(a, i) == CommandId(b, j) && Preimage(a, i) == Preimage(b, j)
    ensures a == b && i == j
  {
    PreimageFamilies(a, i, b, j);
    Parts(a, Suffix(i));
    Parts(b, Suffix(j));
  }
}
