/** The reloader: one current material, polled for changes of the three files.
    A poll reads the files twice, once for the digest and once for the load, and
    anything may happen to them in between. */
module Reloader {
  import opened Outcomes
  import opened Bytes
  import opened Material
  import opened Tracker

  datatype FileNames = FileNames(certFile: string, keyFile: string, caFile: string)

  /** What three reads of the files answer; a read can fail. */
  datatype Reading = Reading(cert: Option<seq<byte>>, key: Option<seq<byte>>, ca: Option<seq<byte>>)

  /** Three files' content. */
  datatype Content = Content(cert: seq<byte>, key: seq<byte>, ca: seq<byte>)

  function Readable(t: Content): Reading { Reading(Some(t.cert), Some(t.key), Some(t.ca)) }

  function Framed(t: Content): seq<byte> { Frame(t.cert, t.key, t.ca) }

  function DigestOfFiles(h: Hash, r: Reading): Option<seq<byte>> {
    if r.cert.None? || r.key.None? || r.ca.None? then None
    else Some(h(Frame(r.cert.value, r.key.value, r.ca.value)))
  }

  /** filesDigest: the files are hashed as they are read, the first that cannot
      be read ends it. */
  method FilesDigest(h: Hash, r: Reading) returns (digest: Option<seq<byte>>)
    ensures digest == DigestOfFiles(h, r)
  {
    var files, written, k := [r.cert, r.key, r.ca], [], 0;
    while k < 3
      invariant 0 <= k <= 3
      invariant k == 0 ==> written == []
      invariant k >= 1 ==> r.cert.Some?
      invariant k >= 2 ==> r.key.Some?
      invariant k >= 3 ==> r.ca.Some?
      invariant k == 1 ==> written == r.cert.value + [0]
      invariant k == 2 ==> written == r.cert.value + [0] + r.key.value + [0]
      invariant k == 3 ==> written == Frame(r.cert.value, r.key.value, r.ca.value)
    {
      if files[k].None? {
        return None;
      }
      written := written + files[k].value;
      written := written + [0];
      k := k + 1;
    }
    return Some(h(written));
  }

  /** material.Load. */
  function LoadOf(h: Hash, d: Decoders, r: Reading, now: int): Result<Material, Defect> {
    if r.cert.None? || r.key.None? || r.ca.None? then Err(Unreadable)
    else ParseOf(h, d, r.cert.value, r.key.value, r.ca.value, now)
  }

  /** What a poll leaves: the current material, the rejected candidates since the
      last accepted one, and whether a material was published. */
  datatype Polled = Polled(current: Material, failures: nat, published: bool)

  function ReloadOf(h: Hash, d: Decoders, current: Material, failures: nat, polled: Reading, loaded: Reading, now: int)
    : Polled
  {
    match DigestOfFiles(h, polled)
    case None => Polled(current, failures + 1, false)
    case Some(digest) =>
      if digest == current.digest then Polled(current, failures, false)
      else
        match LoadOf(h, d, loaded, now)
        case Err(_) => Polled(current, failures + 1, false)
        case Ok(m) => Polled(m, 0, true)
  }

  class Reloader {
    const files: FileNames
    var current: Material
    var failures: nat
    var onChange: seq<ConnTracker>

    constructor (files: FileNames, m: Material)
      ensures this.files == files && current == m && failures == 0 && onChange == []
    {
      this.files, current, failures, onChange := files, m, 0, [];
    }

    /** Reloader.OnChange: every callback here is that of server credentials,
        which retires the connections of their own tracker. */
    method OnChange(t: ConnTracker)
      modifies this`onChange
      ensures onChange == old(onChange) + [t]
    {
      onChange := onChange + [t];
    }

    /** Reloader.Reload. The new state is that of ReloadOf, whatever the two reads
        were; and when a material was published, every tracker is left with the
        connections of its roots. */
    method Reload(h: Hash, d: Decoders, polled: Reading, loaded: Reading, now: int) returns (published: bool)
      requires forall t :: t in onChange ==> t.Valid()
      modifies this`current, this`failures, onChange, set t | t in onChange :: t.net
      ensures Polled(current, failures, published) == ReloadOf(h, d, old(current), old(failures), polled, loaded, now)
      ensures forall t :: t in onChange ==>
                            t.Valid() && t.Pairs() == if published then Kept(old(t.Pairs()), current.roots.Keys)
                                                      else old(t.Pairs())
    {
      var digest := FilesDigest(h, polled);
      if digest.None? {
        failures := failures + 1;
        return false;
      }
      if digest.value == current.digest {
        return false;
      }
      var m: Result<Material, Defect> := Err(Unreadable);
      if loaded.cert.Some? && loaded.key.Some? && loaded.ca.Some? {
        m := Parse(h, d, loaded.cert.value, loaded.key.value, loaded.ca.value, now);
      }
      if m.Err? {
        failures := failures + 1;
        return false;
      }
      failures := 0;
      current := m.value;
      Notify(onChange, m.value.roots.Keys);
      return true;
    }
  }

  /** The callbacks, one after the other. */
  method Notify(fns: seq<ConnTracker>, roots: set<Fingerprint>)
    requires forall t :: t in fns ==> t.Valid()
    modifies fns, set t | t in fns :: t.net
    ensures forall t :: t in fns ==> t.Valid() && t.Pairs() == Kept(old(t.Pairs()), roots)
  {
    var i := 0;
    while i < |fns|
      invariant 0 <= i <= |fns|
      invariant forall t :: t in fns ==> t.Valid()
      invariant forall t :: t in fns[..i] ==> t.Pairs() == Kept(old(t.Pairs()), roots)
      invariant forall t :: t in fns && t !in fns[..i] ==> t.Pairs() == old(t.Pairs())
    {
      var n := fns[i].CloseRetired(roots);
      assert fns[..i + 1] == fns[..i] + [fns[i]];
      i := i + 1;
    }
    assert fns[..i] == fns;
  }

  /** New: no reloader without valid material. */
  method New(h: Hash, d: Decoders, files: FileNames, loaded: Reading, now: int) returns (r: Option<Reloader>)
    ensures r.Some? <==> files.certFile != "" && files.keyFile != "" && files.caFile != "" && LoadOf(h, d, loaded, now).Ok?
    ensures r.Some? ==>
      fresh(r.value) && Ok(r.value.current) == LoadOf(h, d, loaded, now) && r.value.failures == 0 && r.value.onChange == []
  {
    if files.certFile == "" || files.keyFile == "" || files.caFile == "" || loaded.cert.None? || loaded.key.None?
       || loaded.ca.None?
    {
      return None;
    }
    var m := Parse(h, d, loaded.cert.value, loaded.key.value, loaded.ca.value, now);
    if m.Err? {
      return None;
    }
    var made := new Reloader(files, m.value);
    return Some(made);
  }

  /** The fingerprints of the roots a reload dropped. */
  function Lost(previous: Material, current: Material): set<Fingerprint> { previous.roots.Keys - current.roots.Keys }

  lemma OneMoreSeen(lost: set<Fingerprint>, todo: set<Fingerprint>, fp: Fingerprint)
    requires fp in todo
    ensures fp !in lost - todo
    ensures lost - (todo - {fp}) == if fp in lost then lost - todo + {fp} else lost - todo
  {
  }

  /** retired: how many roots a reload dropped. */
  method Retired(previous: Material, current: Material) returns (n: nat)
    ensures n == |Lost(previous, current)|
  {
    var todo := previous.roots.Keys;
    n := 0;
    assert Lost(previous, current) - todo == {};
    while todo != {}
      invariant todo <= previous.roots.Keys && n == |Lost(previous, current) - todo|
      decreases todo
    {
      var fp :| fp in todo;
      OneMoreSeen(Lost(previous, current), todo, fp);
      if fp !in current.roots {
        n := n + 1;
      }
      todo := todo - {fp};
    }
  }

  /** RetiredRoots: the certificates of the dropped roots, as many as there are. */
  method RetiredRoots(previous: Material, current: Material) returns (out: seq<seq<byte>>)
    ensures |out| == |Lost(previous, current)|
    ensures forall fp :: fp in Lost(previous, current) ==> previous.roots[fp] in out
  {
    var todo := previous.roots.Keys;
    out := [];
    ghost var lost := Lost(previous, current);
    ghost var seen: set<Fingerprint> := {};
    while todo != {}
      invariant todo <= previous.roots.Keys && seen == lost - todo
      invariant |out| == |seen|
      invariant forall fp :: fp in seen ==> previous.roots[fp] in out
      decreases todo
    {
      var fp :| fp in todo;
      OneMoreSeen(lost, todo, fp);
      if fp !in current.roots {
        out := out + [previous.roots[fp]];
        seen := seen + {fp};
        assert previous.roots[fp] == out[|out| - 1];
      }
      todo := todo - {fp};
    }
  }

  // ---- What polling keeps and where it leads ----

  /** The material is what these three files are, taken together at some time. */
  ghost predicate From(h: Hash, d: Decoders, m: Material, t: Content) {
    exists now :: ParseOf(h, d, t.cert, t.key, t.ca, now) == Ok(m)
  }

  /** The material passed the validation as a whole. */
  ghost predicate Whole(h: Hash, d: Decoders, m: Material) { exists t :: From(h, d, m, t) }

  datatype Poll = Poll(polled: Reading, loaded: Reading, now: int)

  /** The state after a sequence of polls. */
  function Polls(h: Hash, d: Decoders, current: Material, failures: nat, ps: seq<Poll>): Polled {
    if ps == [] then Polled(current, failures, false)
    else
      var p, before := ps[|ps| - 1], Polls(h, d, current, failures, ps[..|ps| - 1]);
      ReloadOf(h, d, before.current, before.failures, p.polled, p.loaded, p.now)
  }

  lemma ReloadKeepsWhole(h: Hash, d: Decoders, current: Material, failures: nat, p: Poll)
    requires Whole(h, d, current)
    ensures Whole(h, d, ReloadOf(h, d, current, failures, p.polled, p.loaded, p.now).current)
  {
    var after := ReloadOf(h, d, current, failures, p.polled, p.loaded, p.now);
    if after.published {
      var t := Content(p.loaded.cert.value, p.loaded.key.value, p.loaded.ca.value);
      assert ParseOf(h, d, t.cert, t.key, t.ca, p.now) == Ok(after.current);
      assert From(h, d, after.current, t);
    }
  }

  lemma {:induction false} PollsKeepWhole(h: Hash, d: Decoders, current: Material, failures: nat, ps: seq<Poll>)
    requires Whole(h, d, current)
    ensures Whole(h, d, Polls(h, d, current, failures, ps).current)
  {
    if ps != [] {
      PollsKeepWhole(h, d, current, failures, ps[..|ps| - 1]);
      var before := Polls(h, d, current, failures, ps[..|ps| - 1]);
      ReloadKeepsWhole(h, d, before.current, before.failures, ps[|ps| - 1]);
    }
  }

  /** Torn reads: whatever the files do between and during the reads of any
      number of polls, the material in force is one that three contents gave as
      a whole, and its digest is that of these very bytes. */
  lemma CurrentIsAlwaysWhole(h: Hash, d: Decoders, current: Material, failures: nat, ps: seq<Poll>) returns (t: Content)
    requires Whole(h, d, current)
    ensures var after := Polls(h, d, current, failures, ps).current;
      From(h, d, after, t) && after.digest == h(Framed(t)) && after.cert == t.cert && after.key == t.key
  {
    PollsKeepWhole(h, d, current, failures, ps);
    var after := Polls(h, d, current, failures, ps).current;
    t :| From(h, d, after, t);
    FromItsBytes(h, d, after, t);
  }

  lemma FromItsBytes(h: Hash, d: Decoders, m: Material, t: Content)
    requires From(h, d, m, t)
    ensures m.digest == h(Framed(t)) && m.cert == t.cert && m.key == t.key
  {
  }

  /** One poll over files that stand still. Exactly when the material in force is
      not theirs but shares their digest does the poll miss them. */
  lemma PollOfStandingFiles(h: Hash, d: Decoders, current: Material, failures: nat, t: Content, now: int)
    requires ParseOf(h, d, t.cert, t.key, t.ca, now).Ok?
    ensures var after := ReloadOf(h, d, current, failures, Readable(t), Readable(t), now);
      From(h, d, after.current, t) <==> From(h, d, current, t) || current.digest != h(Framed(t))
  {
    var m := ParseOf(h, d, t.cert, t.key, t.ca, now).value;
    assert From(h, d, m, t);
  }

  /** Of the contents with one digest as material in force, one without NUL
      bytes is the material's own, unless the two collide. */
  lemma SameDigestSameFiles(h: Hash, d: Decoders, m: Material, s: Content, t: Content)
    requires From(h, d, m, s) && NulFree(t.cert) && NulFree(t.key) && NulFree(t.ca)
    requires m.digest == h(Framed(t)) && !Collide(h, Framed(s), Framed(t))
    ensures s == t
  {
    FromItsBytes(h, d, m, s);
    NulFreeFrames(t.cert, t.key, t.ca, s.cert, s.key, s.ca);
  }

  lemma FirstPollTakes(h: Hash, d: Decoders, current: Material, s: Content, failures: nat, t: Content, now: int)
    requires From(h, d, current, s) && NulFree(t.cert) && NulFree(t.key) && NulFree(t.ca)
    requires !Collide(h, Framed(s), Framed(t)) && ParseOf(h, d, t.cert, t.key, t.ca, now).Ok?
    ensures var after := ReloadOf(h, d, current, failures, Readable(t), Readable(t), now);
      From(h, d, after.current, t) && (after.published <==> current.digest != h(Framed(t)))
  {
    PollOfStandingFiles(h, d, current, failures, t, now);
    if current.digest == h(Framed(t)) {
      SameDigestSameFiles(h, d, current, s, t);
    }
  }

  lemma {:induction false} LaterPollsAreNoOps(h: Hash, d: Decoders, current: Material, failures: nat, t: Content,
                                              ps: seq<Poll>)
    requires current.digest == h(Framed(t)) && forall i :: 0 <= i < |ps| ==> ps[i].polled == Readable(t)
    ensures Polls(h, d, current, failures, ps) == Polled(current, failures, false)
  {
    if ps != [] {
      LaterPollsAreNoOps(h, d, current, failures, t, ps[..|ps| - 1]);
    }
  }

  /** Convergence: once the files stand still at valid content without NUL bytes,
      one poll makes it current whatever content s was in force, so long as the
      two do not collide; every further poll at whatever time changes nothing. */
  lemma StandingFilesAreTaken(h: Hash, d: Decoders, current: Material, s: Content, failures: nat, t: Content, now: int,
                              ps: seq<Poll>)
    requires From(h, d, current, s) && NulFree(t.cert) && NulFree(t.key) && NulFree(t.ca)
    requires !Collide(h, Framed(s), Framed(t)) && ParseOf(h, d, t.cert, t.key, t.ca, now).Ok?
    requires forall i :: 0 <= i < |ps| ==> ps[i].polled == Readable(t)
    ensures var first := ReloadOf(h, d, current, failures, Readable(t), Readable(t), now);
      && From(h, d, first.current, t)
      && (first.published <==> current.digest != h(Framed(t)))
      && Polls(h, d, first.current, first.failures, ps) == Polled(first.current, first.failures, false)
  {
    FirstPollTakes(h, d, current, s, failures, t, now);
    var first := ReloadOf(h, d, current, failures, Readable(t), Readable(t), now);
    FromItsBytes(h, d, first.current, t);
    LaterPollsAreNoOps(h, d, first.current, first.failures, t, ps);
  }

  /** Standing content that is invalid, or unreadable, and is not what is in
      force leaves that in force and is counted at every poll. */
  lemma {:induction false} BadFilesAreCounted(h: Hash, d: Decoders, current: Material, failures: nat, r: Reading,
                                              ps: seq<Poll>)
    requires DigestOfFiles(h, r) != Some(current.digest)
    requires forall i :: 0 <= i < |ps| ==> ps[i].polled == r && ps[i].loaded == r && LoadOf(h, d, r, ps[i].now).Err?
    ensures Polls(h, d, current, failures, ps) == Polled(current, failures + |ps|, false)
  {
    if ps != [] {
      BadFilesAreCounted(h, d, current, failures, r, ps[..|ps| - 1]);
    }
  }

  /** What the decoders of Go may answer: any key pair is good at time 0, and the
      bundle is one CA or another. */
  function TwoBundles(ca: seq<byte>, one: seq<byte>, other: seq<byte>): Decoders {
    Decoders((c, k) => Some(Leaf(0, 0)), x => [Certificate(if x == ca then one else other, true)])
  }

  lemma OneCertificate(h: Hash, raw: seq<byte>)
    ensures Collected(h, [Certificate(raw, true)]) == Ok(Bundle({raw}, map[Sum(h, raw) := raw]))
  {
    var blocks := [Certificate(raw, true)];
    assert blocks[..0] == [];
    assert Collected(h, blocks[..0]) == Ok(Bundle({}, map[]));
    assert {} + {raw} == {raw};
  }

  /** What the three files are at time 0, if their bundle is the one certificate. */
  function MaterialOf(h: Hash, t: Content, raw: seq<byte>): Material {
    Material(t.cert, t.key, Leaf(0, 0), {raw}, map[Sum(h, raw) := raw], h(Framed(t)))
  }

  lemma LoadsOneCertificate(h: Hash, d: Decoders, t: Content, raw: seq<byte>)
    requires d.pair(t.cert, t.key) == Some(Leaf(0, 0)) && d.blocks(t.ca) == [Certificate(raw, true)]
    ensures From(h, d, MaterialOf(h, t, raw), t)
  {
    OneCertificate(h, raw);
    assert Sum(h, raw) in map[Sum(h, raw) := raw];
    assert ParseOf(h, d, t.cert, t.key, t.ca, 0) == Ok(MaterialOf(h, t, raw));
  }

  /** The miss is real, for every content with a NUL byte in one of its files:
      there are other files, with the same digest, and a way the files decode
      under which both are taken and trust different roots; and with those other
      files in force, no number of polls over the content ever takes it up. */
  lemma ContentWithNulCanBeMissed(h: Hash, t: Content, one: seq<byte>, other: seq<byte>)
    returns (d: Decoders, s: Content, current: Material, missed: Material)
    requires !NulFree(t.cert) || !NulFree(t.key) || !NulFree(t.ca)
    requires h(one) != h(other)
    ensures Framed(s) == Framed(t)
    ensures From(h, d, current, s) && From(h, d, missed, t) && current.roots.Keys != missed.roots.Keys
    ensures forall failures, ps: seq<Poll> ::
              (forall i :: 0 <= i < |ps| ==> ps[i].polled == Readable(t)) ==>
              Polls(h, d, current, failures, ps) == Polled(current, failures, false)
  {
    var c, k, a := Twin(t.cert, t.key, t.ca);
    s := Content(c, k, a);
    d := TwoBundles(t.ca, one, other);
    current, missed := MaterialOf(h, s, other), MaterialOf(h, t, one);
    LoadsOneCertificate(h, d, s, other);
    LoadsOneCertificate(h, d, t, one);
    assert Sum(h, one) in missed.roots && Sum(h, one) !in current.roots;
    forall failures, ps: seq<Poll> | forall i :: 0 <= i < |ps| ==> ps[i].polled == Readable(t)
      ensures Polls(h, d, current, failures, ps) == Polled(current, failures, false)
    {
      LaterPollsAreNoOps(h, d, current, failures, t, ps);
    }
  }

  /** Material.Equal tells content apart up to a collision, where the files have
      no NUL byte. */
  lemma EqualIsTheSameFiles(h: Hash, d: Decoders, m: Material, s: Content, n: Material, t: Content)
    requires From(h, d, m, s) && From(h, d, n, t) && NulFree(t.cert) && NulFree(t.key) && NulFree(t.ca)
    ensures Equal(Some(m), Some(n)) <==> s == t || Collide(h, Framed(s), Framed(t))
  {
    FromItsBytes(h, d, m, s);
    FromItsBytes(h, d, n, t);
    if Framed(s) == Framed(t) {
      NulFreeFrames(t.cert, t.key, t.ca, s.cert, s.key, s.ca);
    }
  }

  /** NewServerCredentials: a tracker of their own, swept at every publication. */
  method NewServerCredentials(r: Reloader, net: Network) returns (t: ConnTracker)
    modifies r`onChange
    ensures fresh(t) && t.Valid() && t.Pairs() == {} && t.net == net
    ensures r.onChange == old(r.onChange) + [t]
  {
    t := new ConnTracker(net);
    r.OnChange(t);
  }
}
