/** One identity configuration as loaded from the mounted files: the validation
    of the three files as a whole, the trusted roots, and the digest by which a
    poll tells whether anything changed. The decoders of Go's TLS and X.509
    packages are parameters. */
module Material {
  import opened Outcomes
  import opened Bytes

  /** sha256.Sum256 of a certificate. */
  datatype Fingerprint = Fingerprint(sum: seq<byte>)

  function Sum(h: Hash, raw: seq<byte>): Fingerprint { Fingerprint(h(raw)) }

  datatype Leaf = Leaf(notBefore: int, notAfter: int)

  /** What a PEM block of the bundle is: of another type, a certificate that does
      not parse, or a parsed certificate. */
  datatype Block = OtherBlock | BadCertificate | Certificate(raw: seq<byte>, isCA: bool)

  /** The key pair's leaf, if the key matches and the leaf parses, and the blocks
      of a bundle. */
  datatype Decoders = Decoders(pair: (seq<byte>, seq<byte>) -> Option<Leaf>, blocks: seq<byte> -> seq<Block>)

  datatype Defect = Unreadable | BadPair | NotValidNow | BadBundle | NotACA | EmptyBundle

  datatype Material = Material(cert: seq<byte>, key: seq<byte>, leaf: Leaf, pool: set<seq<byte>>,
                               roots: map<Fingerprint, seq<byte>>, digest: seq<byte>)

  /** The bytes under the digest: each file closed by a NUL. */
  function Frame(cert: seq<byte>, key: seq<byte>, ca: seq<byte>): seq<byte> {
    cert + [0] + key + [0] + ca + [0]
  }

  /** The loop that feeds the hash: each file, then a zero byte. */
  method FramedDigest(h: Hash, cert: seq<byte>, key: seq<byte>, ca: seq<byte>) returns (digest: seq<byte>)
    ensures digest == h(Frame(cert, key, ca))
  {
    var files, written, k := [cert, key, ca], [], 0;
    while k < 3
      invariant 0 <= k <= 3
      invariant k == 0 ==> written == []
      invariant k == 1 ==> written == cert + [0]
      invariant k == 2 ==> written == cert + [0] + key + [0]
      invariant k == 3 ==> written == Frame(cert, key, ca)
    {
      written := written + files[k];
      written := written + [0];
      k := k + 1;
    }
    digest := h(written);
  }

  datatype Bundle = Bundle(pool: set<seq<byte>>, roots: map<Fingerprint, seq<byte>>)

  /** The roots of a bundle, or the first defect in it. */
  function Collected(h: Hash, blocks: seq<Block>): Result<Bundle, Defect> {
    if blocks == [] then Ok(Bundle({}, map[]))
    else
      match Collected(h, blocks[..|blocks| - 1])
      case Err(e) => Err(e)
      case Ok(b) =>
        match blocks[|blocks| - 1]
        case OtherBlock => Ok(b)
        case BadCertificate => Err(BadBundle)
        case Certificate(raw, isCA) =>
          if isCA then Ok(Bundle(b.pool + {raw}, b.roots[Sum(h, raw) := raw])) else Err(NotACA)
  }

  /** material.Parse as a function, for the statements below. */
  function ParseOf(h: Hash, d: Decoders, cert: seq<byte>, key: seq<byte>, ca: seq<byte>, now: int)
    : Result<Material, Defect>
  {
    match d.pair(cert, key)
    case None => Err(BadPair)
    case Some(leaf) =>
      if now < leaf.notBefore || now > leaf.notAfter then Err(NotValidNow)
      else
        match Collected(h, d.blocks(ca))
        case Err(e) => Err(e)
        case Ok(b) =>
          if b.roots == map[] then Err(EmptyBundle)
          else Ok(Material(cert, key, leaf, b.pool, b.roots, h(Frame(cert, key, ca))))
  }

  /** The loop over the bundle's blocks; the first defect ends it. */
  method ReadBundle(h: Hash, blocks: seq<Block>) returns (r: Result<Bundle, Defect>)
    ensures r == Collected(h, blocks)
  {
    var pool: set<seq<byte>>, roots: map<Fingerprint, seq<byte>> := {}, map[];
    var i := 0;
    while i < |blocks|
      invariant 0 <= i <= |blocks|
      invariant Collected(h, blocks[..i]) == Ok(Bundle(pool, roots))
    {
      assert blocks[..i + 1][..i] == blocks[..i];
      if blocks[i].BadCertificate? || (blocks[i].Certificate? && !blocks[i].isCA) {
        FirstDefectStands(h, blocks, i + 1);
        return Err(if blocks[i].BadCertificate? then BadBundle else NotACA);
      }
      if blocks[i].Certificate? {
        pool := pool + {blocks[i].raw};
        roots := roots[Sum(h, blocks[i].raw) := blocks[i].raw];
      }
      i := i + 1;
    }
    assert blocks[..i] == blocks;
    return Ok(Bundle(pool, roots));
  }

  /** material.Parse. */
  method Parse(h: Hash, d: Decoders, cert: seq<byte>, key: seq<byte>, ca: seq<byte>, now: int)
    returns (r: Result<Material, Defect>)
    ensures r == ParseOf(h, d, cert, key, ca, now)
  {
    var pair := d.pair(cert, key);
    if pair.None? {
      return Err(BadPair);
    }
    var leaf := pair.value;
    if now < leaf.notBefore || now > leaf.notAfter {
      return Err(NotValidNow);
    }
    var bundle := ReadBundle(h, d.blocks(ca));
    if bundle.Err? {
      return Err(bundle.error);
    }
    if bundle.value.roots == map[] {
      return Err(EmptyBundle);
    }
    var digest := FramedDigest(h, cert, key, ca);
    return Ok(Material(cert, key, leaf, bundle.value.pool, bundle.value.roots, digest));
  }

  lemma {:induction false} FirstDefectStands(h: Hash, blocks: seq<Block>, n: nat)
    requires n <= |blocks| && Collected(h, blocks[..n]).Err?
    ensures Collected(h, blocks) == Collected(h, blocks[..n])
    decreases |blocks|
  {
    if n == |blocks| {
      assert blocks[..n] == blocks;
    } else {
      var init := blocks[..|blocks| - 1];
      assert init[..n] == blocks[..n];
      FirstDefectStands(h, init, n);
    }
  }

  ghost predicate Holds(blocks: seq<Block>, raw: seq<byte>) {
    exists i :: 0 <= i < |blocks| && blocks[i] == Certificate(raw, true)
  }

  /** The pool is the certificates of the blocks. */
  ghost predicate PoolOf(blocks: seq<Block>, pool: set<seq<byte>>) {
    forall raw :: raw in pool <==> Holds(blocks, raw)
  }

  /** The roots are the pool, each under its own fingerprint. */
  ghost predicate Indexed(h: Hash, b: Bundle) {
    && (forall raw :: raw in b.pool ==> Sum(h, raw) in b.roots)
    && (forall fp :: fp in b.roots ==> b.roots[fp] in b.pool)
    && (forall fp :: fp in b.roots ==> Sum(h, b.roots[fp]) == fp)
  }

  ghost predicate SoundBlock(b: Block) { !b.BadCertificate? && (b.Certificate? ==> b.isCA) }

  ghost predicate SoundBundle(blocks: seq<Block>) { forall i :: 0 <= i < |blocks| ==> SoundBlock(blocks[i]) }

  lemma SoundStepwise(blocks: seq<Block>)
    requires blocks != []
    ensures SoundBundle(blocks) <==> SoundBundle(blocks[..|blocks| - 1]) && SoundBlock(blocks[|blocks| - 1])
  {
    var init := blocks[..|blocks| - 1];
    assert forall i :: 0 <= i < |init| ==> init[i] == blocks[i];
    if SoundBundle(init) && SoundBlock(blocks[|blocks| - 1]) {
      forall i | 0 <= i < |blocks| ensures SoundBlock(blocks[i]) {
        if i < |init| { assert SoundBlock(init[i]); }
      }
    }
  }

  lemma OneMoreInPool(blocks: seq<Block>, pool: set<seq<byte>>)
    requires blocks != [] && PoolOf(blocks[..|blocks| - 1], pool)
    ensures blocks[|blocks| - 1].OtherBlock? ==> PoolOf(blocks, pool)
    ensures var last := blocks[|blocks| - 1]; last.Certificate? && last.isCA ==> PoolOf(blocks, pool + {last.raw})
  {
    var last := blocks[|blocks| - 1];
    forall raw ensures Holds(blocks, raw) <==> raw in pool || last == Certificate(raw, true) {
      HoldsStepwise(blocks, raw);
    }
  }

  lemma OneMoreIndexed(h: Hash, b: Bundle, raw: seq<byte>)
    requires Indexed(h, b)
    ensures Indexed(h, Bundle(b.pool + {raw}, b.roots[Sum(h, raw) := raw]))
  {
  }

  /** What the loop collects: there is a defect, or exactly the bundle. */
  lemma {:induction false} CollectedExactly(h: Hash, blocks: seq<Block>)
    ensures Collected(h, blocks).Ok? <==> SoundBundle(blocks)
    ensures Collected(h, blocks).Ok? ==>
      PoolOf(blocks, Collected(h, blocks).value.pool) && Indexed(h, Collected(h, blocks).value)
  {
    if blocks != [] {
      var init, last := blocks[..|blocks| - 1], blocks[|blocks| - 1];
      CollectedExactly(h, init);
      SoundStepwise(blocks);
      if Collected(h, init).Ok? {
        OneMoreInPool(blocks, Collected(h, init).value.pool);
        if last.Certificate? && last.isCA {
          OneMoreIndexed(h, Collected(h, init).value, last.raw);
        }
      }
    }
  }

  lemma HoldsStepwise(blocks: seq<Block>, raw: seq<byte>)
    requires blocks != []
    ensures Holds(blocks, raw) <==> Holds(blocks[..|blocks| - 1], raw) || blocks[|blocks| - 1] == Certificate(raw, true)
  {
    var init := blocks[..|blocks| - 1];
    if Holds(init, raw) {
      var i :| 0 <= i < |init| && init[i] == Certificate(raw, true);
      assert blocks[i] == Certificate(raw, true);
    }
    if Holds(blocks, raw) {
      var i :| 0 <= i < |blocks| && blocks[i] == Certificate(raw, true);
      assert i < |init| ==> init[i] == Certificate(raw, true);
    }
  }

  /** What makes three files acceptable at a time. */
  ghost predicate Acceptable(d: Decoders, cert: seq<byte>, key: seq<byte>, ca: seq<byte>, now: int) {
    && d.pair(cert, key).Some?
    && d.pair(cert, key).value.notBefore <= now <= d.pair(cert, key).value.notAfter
    && SoundBundle(d.blocks(ca))
    && exists raw :: Holds(d.blocks(ca), raw)
  }

  /** The files are taken as a whole: the key must match, the leaf must be in
      its validity, every certificate of the bundle must parse and be a CA, and
      there must be one. What is then trusted is the bundle and nothing else. */
  lemma ParseExactly(h: Hash, d: Decoders, cert: seq<byte>, key: seq<byte>, ca: seq<byte>, now: int)
    ensures var r := ParseOf(h, d, cert, key, ca, now);
      && (r.Ok? <==> Acceptable(d, cert, key, ca, now))
      && (r.Ok? ==> && r.value.cert == cert && r.value.key == key && d.pair(cert, key) == Some(r.value.leaf)
                    && r.value.digest == h(Frame(cert, key, ca))
                    && PoolOf(d.blocks(ca), r.value.pool) && Indexed(h, Bundle(r.value.pool, r.value.roots)))
  {
    var blocks := d.blocks(ca);
    CollectedExactly(h, blocks);
    if SoundBundle(blocks) {
      SomeRoot(h, blocks, Collected(h, blocks).value);
    }
  }

  lemma SomeRoot(h: Hash, blocks: seq<Block>, b: Bundle)
    requires PoolOf(blocks, b.pool) && Indexed(h, b)
    ensures b.roots != map[] <==> exists raw :: Holds(blocks, raw)
  {
    if b.roots != map[] {
      var fp :| fp in b.roots;
      assert Holds(blocks, b.roots[fp]);
    }
    forall raw | Holds(blocks, raw) ensures b.roots != map[] {
      assert Sum(h, raw) in b.roots;
    }
  }

  /** Material.TrustsRoot; either may be nil. */
  predicate TrustsRoot(h: Hash, m: Option<Material>, root: Option<seq<byte>>) {
    m.Some? && root.Some? && Sum(h, root.value) in m.value.roots
  }

  /** Every root of the bundle the material came from is trusted, and whatever
      else is trusted collides with one of them. */
  lemma TrustIsTheBundle(h: Hash, d: Decoders, cert: seq<byte>, key: seq<byte>, ca: seq<byte>, now: int, m: Material,
                         root: seq<byte>)
    requires ParseOf(h, d, cert, key, ca, now) == Ok(m)
    ensures TrustsRoot(h, Some(m), Some(root)) <==>
            Holds(d.blocks(ca), root) || exists raw :: Holds(d.blocks(ca), raw) && Collide(h, raw, root)
  {
    ParsedBundle(h, d, cert, key, ca, now, m);
    IndexedTrust(h, Bundle(m.pool, m.roots), root);
    if raw :| Holds(d.blocks(ca), raw) && Collide(h, raw, root) {
      assert raw in m.pool;
    }
  }

  lemma ParsedBundle(h: Hash, d: Decoders, cert: seq<byte>, key: seq<byte>, ca: seq<byte>, now: int, m: Material)
    requires ParseOf(h, d, cert, key, ca, now) == Ok(m)
    ensures PoolOf(d.blocks(ca), m.pool) && Indexed(h, Bundle(m.pool, m.roots))
  {
    ParseExactly(h, d, cert, key, ca, now);
  }

  lemma IndexedTrust(h: Hash, b: Bundle, root: seq<byte>)
    requires Indexed(h, b)
    ensures Sum(h, root) in b.roots <==> root in b.pool || exists raw :: raw in b.pool && Collide(h, raw, root)
  {
    if Sum(h, root) in b.roots {
      assert b.roots[Sum(h, root)] in b.pool;
      assert Sum(h, b.roots[Sum(h, root)]) == Sum(h, root);
    }
    if raw :| raw in b.pool && Collide(h, raw, root) {
      assert Sum(h, raw) in b.roots;
    }
  }

  /** Material.Equal. */
  predicate Equal(m: Option<Material>, o: Option<Material>) {
    m.Some? && o.Some? && m.value.digest == o.value.digest
  }

  // ---- The frame under the digest ----

  ghost predicate NulFree(b: seq<byte>) { forall i :: 0 <= i < |b| ==> b[i] != 0 }

  /** No other three files have the same frame. */
  ghost predicate UniquelyFramed(cert: seq<byte>, key: seq<byte>, ca: seq<byte>) {
    forall c, k, a :: Frame(c, k, a) == Frame(cert, key, ca) ==> c == cert && k == key && a == ca
  }

  function Nuls(b: seq<byte>): nat {
    if b == [] then 0 else Nuls(b[..|b| - 1]) + if b[|b| - 1] == 0 then 1 else 0
  }

  lemma {:induction false} NulsOfConcat(a: seq<byte>, b: seq<byte>)
    ensures Nuls(a + b) == Nuls(a) + Nuls(b)
  {
    if b == [] {
      assert a + b == a;
    } else {
      var ab := a + b;
      assert ab[..|ab| - 1] == a + b[..|b| - 1];
      NulsOfConcat(a, b[..|b| - 1]);
    }
  }

  lemma {:induction false} NoNuls(b: seq<byte>)
    ensures Nuls(b) == 0 <==> NulFree(b)
  {
    if b != [] {
      var init := b[..|b| - 1];
      NoNuls(init);
      assert forall i :: 0 <= i < |init| ==> init[i] == b[i];
      assert NulFree(b) ==> NulFree(init) && b[|b| - 1] != 0;
      if NulFree(init) && b[|b| - 1] != 0 {
        forall i | 0 <= i < |b| ensures b[i] != 0 {
          if i < |init| { assert init[i] != 0; }
        }
      }
    }
  }

  lemma NulsOfFrame(cert: seq<byte>, key: seq<byte>, ca: seq<byte>)
    ensures Nuls(Frame(cert, key, ca)) == 3 + Nuls(cert) + Nuls(key) + Nuls(ca)
  {
    assert Nuls([0]) == Nuls([]) + 1 by { assert [0][..0] == []; }
    NulsOfConcat(cert + [0] + key + [0] + ca, [0]);
    NulsOfConcat(cert + [0] + key + [0], ca);
    NulsOfConcat(cert + [0] + key, [0]);
    NulsOfConcat(cert + [0], key);
    NulsOfConcat(cert, [0]);
  }

  /** NUL-free parts are cut where the first NUL stands. */
  lemma FirstCut(a: seq<byte>, x: seq<byte>, b: seq<byte>, y: seq<byte>)
    requires NulFree(a) && NulFree(b) && a + [0] + x == b + [0] + y
    ensures a == b && x == y
  {
    var s := a + [0] + x;
    assert s[|a|] == 0 && forall i :: 0 <= i < |a| ==> s[i] == a[i];
    assert s == b + [0] + y && s[|b|] == 0 && forall i :: 0 <= i < |b| ==> s[i] == b[i];
    assert |a| == |b|;
    assert a == s[..|a|] && b == s[..|b|];
    assert x == s[|a| + 1..] && y == s[|b| + 1..];
  }

  lemma FrameShape(cert: seq<byte>, key: seq<byte>, ca: seq<byte>)
    ensures Frame(cert, key, ca) == cert + [0] + (key + [0] + (ca + [0] + []))
  {
  }

  lemma NulFreeFrames(cert: seq<byte>, key: seq<byte>, ca: seq<byte>, c: seq<byte>, k: seq<byte>, a: seq<byte>)
    requires NulFree(cert) && NulFree(key) && NulFree(ca) && Frame(c, k, a) == Frame(cert, key, ca)
    ensures c == cert && k == key && a == ca
  {
    NulsOfFrame(cert, key, ca);
    NulsOfFrame(c, k, a);
    NoNuls(cert); NoNuls(key); NoNuls(ca); NoNuls(c); NoNuls(k); NoNuls(a);
    FrameShape(cert, key, ca);
    FrameShape(c, k, a);
    FirstCut(cert, key + [0] + (ca + [0] + []), c, k + [0] + (a + [0] + []));
    FirstCut(key, ca + [0] + [], k, a + [0] + []);
    FirstCut(ca, [], a, []);
  }

  /** A file with a NUL inside has a twin: other three files with its frame. */
  lemma Twin(cert: seq<byte>, key: seq<byte>, ca: seq<byte>) returns (c: seq<byte>, k: seq<byte>, a: seq<byte>)
    requires !NulFree(cert) || !NulFree(key) || !NulFree(ca)
    ensures Frame(c, k, a) == Frame(cert, key, ca) && a != ca
  {
    if !NulFree(cert) {
      var i :| 0 <= i < |cert| && cert[i] == 0;
      c, k, a := cert[..i], cert[i + 1..], key + [0] + ca;
      assert cert == c + [0] + k;
    } else if !NulFree(key) {
      var i :| 0 <= i < |key| && key[i] == 0;
      c, k, a := cert, key[..i], key[i + 1..] + [0] + ca;
      assert key == key[..i] + [0] + key[i + 1..];
    } else {
      var i :| 0 <= i < |ca| && ca[i] == 0;
      c, k, a := cert + [0] + key, ca[..i], ca[i + 1..];
      assert ca == k + [0] + a;
    }
  }

  /** The digest tells three files from all others exactly when none of them
      holds a NUL byte: the framing is by terminator, not by length. */
  lemma FramingIsUniqueExactlyWithoutNuls(cert: seq<byte>, key: seq<byte>, ca: seq<byte>)
    ensures UniquelyFramed(cert, key, ca) <==> NulFree(cert) && NulFree(key) && NulFree(ca)
  {
    if NulFree(cert) && NulFree(key) && NulFree(ca) {
      forall c, k, a | Frame(c, k, a) == Frame(cert, key, ca) ensures c == cert && k == key && a == ca {
        NulFreeFrames(cert, key, ca, c, k, a);
      }
    } else {
      var c, k, a := Twin(cert, key, ca);
      assert Frame(c, k, a) == Frame(cert, key, ca);
    }
  }
}
