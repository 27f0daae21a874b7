/** The tracker of accepted server connections by the root that verified their
    peer: a nested map kept without empty inner sets, and its meaning, a flat
    set of (root fingerprint, connection) pairs. */
module Tracker {
  import opened Bytes
  import opened Material

  /** A network connection. */
  datatype Conn = Conn(id: nat)

  type Pair = (Fingerprint, Conn)

  // ---- The flat view ----

  /** The pairs whose root is still trusted, and those whose root is not. */
  ghost function Kept(pairs: set<Pair>, roots: set<Fingerprint>): set<Pair> { set p | p in pairs && p.0 in roots }

  ghost function Dropped(pairs: set<Pair>, roots: set<Fingerprint>): set<Pair> { set p | p in pairs && p.0 !in roots }

  /** The connections of some pairs. */
  ghost function ConnsOf(pairs: set<Pair>): set<Conn> { set p | p in pairs :: p.1 }

  /** The pairs of one connection: one for each root it was added under. */
  ghost function Of(pairs: set<Pair>, c: Conn): set<Pair> { set p | p in pairs && p.1 == c }

  /** One root per connection, as the handshake adds them. */
  ghost predicate OneRootEach(pairs: set<Pair>) { forall p, q :: p in pairs && q in pairs && p.1 == q.1 ==> p == q }

  lemma OncePerConnection(pairs: set<Pair>, c: Conn)
    requires OneRootEach(pairs)
    ensures |Of(pairs, c)| == if c in ConnsOf(pairs) then 1 else 0
  {
    if c in ConnsOf(pairs) {
      var p :| p in pairs && p.1 == c;
      assert Of(pairs, c) == {p};
    } else {
      forall p ensures p !in Of(pairs, c) {
        assert p in pairs && p.1 == c ==> c in ConnsOf(pairs);
      }
      assert Of(pairs, c) == {};
    }
  }

  /** What one inner set stands for. */
  ghost function Under(fp: Fingerprint, conns: set<Conn>): set<Pair> { set c | c in conns :: (fp, c) }

  lemma {:induction false} UnderHasOnePerConnection(fp: Fingerprint, conns: set<Conn>)
    ensures |Under(fp, conns)| == |conns|
  {
    if conns != {} {
      var c :| c in conns;
      UnderHasOnePerConnection(fp, conns - {c});
      assert Under(fp, conns) == Under(fp, conns - {c}) + {(fp, c)};
    }
  }

  // ---- The nested map ----

  type Nested = map<Fingerprint, set<Conn>>

  /** No empty inner set. */
  ghost predicate Tidy(m: Nested) { forall fp :: fp in m ==> m[fp] != {} }

  /** What the nested map means. */
  ghost function Flat(m: Nested): set<Pair> { set fp, c | fp in m && c in m[fp] :: (fp, c) }

  lemma InFlat(m: Nested, p: Pair)
    ensures p in Flat(m) <==> p.0 in m && p.1 in m[p.0]
  {
  }

  lemma AddedPair(m: Nested, fp: Fingerprint, c: Conn)
    requires Tidy(m)
    ensures var n := m[fp := (if fp in m then m[fp] else {}) + {c}]; Tidy(n) && Flat(n) == Flat(m) + {(fp, c)}
  {
    var n := m[fp := (if fp in m then m[fp] else {}) + {c}];
    forall p ensures p in Flat(n) <==> p in Flat(m) + {(fp, c)} {
      InFlat(m, p);
      InFlat(n, p);
    }
  }

  lemma RemovedPair(m: Nested, fp: Fingerprint, c: Conn)
    requires Tidy(m) && fp in m
    ensures var rest := m[fp] - {c};
      var n := if rest == {} then m - {fp} else m[fp := rest];
      Tidy(n) && Flat(n) == Flat(m) - {(fp, c)}
  {
    var rest := m[fp] - {c};
    var n := if rest == {} then m - {fp} else m[fp := rest];
    forall p ensures p in Flat(n) <==> p in Flat(m) - {(fp, c)} {
      InFlat(m, p);
      InFlat(n, p);
      assert p.1 in rest <==> p.1 in m[fp] && p.1 != c;
    }
  }

  lemma MissingPair(m: Nested, fp: Fingerprint, c: Conn)
    requires fp !in m
    ensures Flat(m) == Flat(m) - {(fp, c)}
  {
  }

  ghost function Only(m: Nested, fps: set<Fingerprint>): Nested { map fp | fp in m && fp in fps :: m[fp] }

  /** The pairs a sweep that spares some roots takes away. */
  ghost function Gone(m: Nested, spared: set<Fingerprint>): set<Pair> { Dropped(Flat(m), spared) }

  lemma NothingGone(m: Nested, spared: set<Fingerprint>)
    requires m.Keys <= spared
    ensures Only(m, spared) == m && Gone(m, spared) == {} && forall c :: Of(Gone(m, spared), c) == {}
  {
  }

  lemma OneLess(todo: set<Fingerprint>, roots: set<Fingerprint>, fp: Fingerprint)
    requires fp in todo
    ensures fp in roots ==> todo - {fp} + roots == todo + roots
    ensures fp !in roots ==> todo - {fp} + roots == todo + roots - {fp}
  {
  }

  lemma GoneWith(m: Nested, spared: set<Fingerprint>, fp: Fingerprint)
    requires fp in m && fp in spared
    ensures Gone(m, spared - {fp}) == Gone(m, spared) + Under(fp, m[fp]) && Gone(m, spared) !! Under(fp, m[fp])
  {
    forall p ensures p in Gone(m, spared - {fp}) <==> p in Gone(m, spared) || p in Under(fp, m[fp]) {
      InFlat(m, p);
    }
  }

  /** Each connection of the inner set is one pair more, any other none. */
  lemma OfWith(gone: set<Pair>, fp: Fingerprint, inner: set<Conn>, c: Conn)
    requires gone !! Under(fp, inner)
    ensures |Of(gone + Under(fp, inner), c)| == |Of(gone, c)| + if c in inner then 1 else 0
  {
    if c in inner {
      assert Of(gone + Under(fp, inner), c) == Of(gone, c) + {(fp, c)};
      assert (fp, c) in Under(fp, inner);
    } else {
      assert Of(gone + Under(fp, inner), c) == Of(gone, c);
    }
  }

  /** One turn of the outer loop of closeRetired, at a root to be retired: the
      map loses the root, and what is gone grows by its connections. */
  lemma OneTurn(m: Nested, spared: set<Fingerprint>, fp: Fingerprint)
    requires fp in m && fp in spared
    ensures fp in Only(m, spared) && Only(m, spared)[fp] == m[fp]
    ensures Only(m, spared - {fp}) == Only(m, spared) - {fp}
    ensures |Gone(m, spared - {fp})| == |Gone(m, spared)| + |m[fp]|
    ensures forall c :: |Of(Gone(m, spared - {fp}), c)| == |Of(Gone(m, spared), c)| + if c in m[fp] then 1 else 0
  {
    MapTurn(m, spared, fp);
    GoneWith(m, spared, fp);
    UnderHasOnePerConnection(fp, m[fp]);
    forall c ensures |Of(Gone(m, spared - {fp}), c)| == |Of(Gone(m, spared), c)| + if c in m[fp] then 1 else 0 {
      OfWith(Gone(m, spared), fp, m[fp], c);
    }
  }

  lemma MapTurn(m: Nested, spared: set<Fingerprint>, fp: Fingerprint)
    requires fp in m && fp in spared
    ensures fp in Only(m, spared) && Only(m, spared)[fp] == m[fp]
    ensures Only(m, spared - {fp}) == Only(m, spared) - {fp}
  {
  }

  lemma OnlyTrusted(m: Nested, roots: set<Fingerprint>)
    requires Tidy(m)
    ensures Tidy(Only(m, roots)) && Flat(Only(m, roots)) == Kept(Flat(m), roots)
  {
    forall p ensures p in Flat(Only(m, roots)) <==> p in Kept(Flat(m), roots) {
      InFlat(m, p);
      InFlat(Only(m, roots), p);
    }
  }

  // ---- The objects ----

  /** The network: how often each connection was closed. */
  class Network {
    var closes: multiset<Conn>

    constructor ()
      ensures closes == multiset{}
    {
      closes := multiset{};
    }

    method Close(c: Conn)
      modifies this
      ensures closes == old(closes) + multiset{c}
    {
      closes := closes + multiset{c};
    }
  }

  class ConnTracker {
    const net: Network
    var conns: Nested

    ghost predicate Valid()
      reads this
    {
      Tidy(conns)
    }

    ghost function Pairs(): set<Pair>
      reads this
    {
      Flat(conns)
    }

    constructor (net: Network)
      ensures Valid() && Pairs() == {} && this.net == net
    {
      this.net := net;
      conns := map[];
    }

    /** connTracker.add. */
    method Add(h: Hash, root: seq<byte>, c: Conn)
      requires Valid()
      modifies this
      ensures Valid() && Pairs() == old(Pairs()) + {(Sum(h, root), c)}
    {
      var fp := Sum(h, root);
      AddedPair(conns, fp, c);
      if fp !in conns {
        conns := conns[fp := {}];
      }
      conns := conns[fp := conns[fp] + {c}];
    }

    /** connTracker.remove: of a pair that is not there, nothing. */
    method Remove(h: Hash, root: seq<byte>, c: Conn)
      requires Valid()
      modifies this
      ensures Valid() && Pairs() == old(Pairs()) - {(Sum(h, root), c)}
    {
      var fp := Sum(h, root);
      if fp in conns {
        RemovedPair(conns, fp, c);
        var rest := conns[fp] - {c};
        if rest == {} {
          conns := conns - {fp};
        } else {
          conns := conns[fp := rest];
        }
      } else {
        MissingPair(conns, fp, c);
      }
    }

    /** connTracker.closeRetired: exactly the pairs of roots the material does not
        hold are dropped and counted, and each one's connection is closed. */
    method CloseRetired(roots: set<Fingerprint>) returns (n: nat)
      requires Valid()
      modifies this, net
      ensures Valid() && Pairs() == Kept(old(Pairs()), roots)
      ensures n == |Dropped(old(Pairs()), roots)|
      ensures forall c :: net.closes[c] == old(net.closes[c]) + |Of(Dropped(old(Pairs()), roots), c)|
    {
      ghost var was := conns;
      var todo := conns.Keys;
      n := 0;
      ghost var spared := todo + roots;
      NothingGone(was, spared);
      while todo != {}
        invariant todo <= was.Keys && spared == todo + roots
        invariant conns == Only(was, spared) && n == |Gone(was, spared)|
        invariant forall c :: net.closes[c] == old(net.closes[c]) + |Of(Gone(was, spared), c)|
        decreases todo
      {
        var fp :| fp in todo;
        OneLess(todo, roots, fp);
        todo := todo - {fp};
        if fp !in roots {
          OneTurn(was, spared, fp);
          spared := spared - {fp};
          var k := CloseAll(net, conns[fp]);
          n := n + k;
          conns := conns - {fp};
        }
      }
      assert spared == roots;
      OnlyTrusted(was, roots);
    }
  }

  /** The inner loop of closeRetired. */
  method CloseAll(net: Network, conns: set<Conn>) returns (n: nat)
    modifies net
    ensures n == |conns| && net.closes == old(net.closes) + multiset(conns)
  {
    var todo := conns;
    n := 0;
    while todo != {}
      invariant todo <= conns && n + |todo| == |conns|
      invariant net.closes + multiset(todo) == old(net.closes) + multiset(conns)
      decreases todo
    {
      var c :| c in todo;
      net.Close(c);
      assert multiset(todo) == multiset(todo - {c}) + multiset{c};
      todo := todo - {c};
      n := n + 1;
    }
  }

  /** The connection handed to the server: it leaves the tracker when closed, the
      first time only. */
  class TrackedConn {
    const conn: Conn
    const root: seq<byte>
    const tracker: ConnTracker
    var left: bool

    constructor (conn: Conn, root: seq<byte>, tracker: ConnTracker)
      ensures this.conn == conn && this.root == root && this.tracker == tracker && !left
    {
      this.conn := conn;
      this.root := root;
      this.tracker := tracker;
      left := false;
    }

    method Close(h: Hash)
      requires tracker.Valid()
      modifies this, tracker, tracker.net
      ensures tracker.Valid() && left && tracker.net.closes == old(tracker.net.closes) + multiset{conn}
      ensures tracker.Pairs() == if old(left) then old(tracker.Pairs()) else old(tracker.Pairs()) - {(Sum(h, root), conn)}
    {
      if !left {
        left := true;
        tracker.Remove(h, root, conn);
      }
      tracker.net.Close(conn);
    }
  }
}
