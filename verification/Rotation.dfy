/** The rotation of a server's workload identity as a transition system. The
    files change under the reader at any time, also between two reads of one
    poll; polls overlap; a published material and its callback are two steps;
    a handshake verifies against the material in force when it began and adds
    its connection whenever it is done; and the server closes connections at
    will. The tracker is the flat view of the nested map. */
module Rotation {
  import opened Outcomes
  import opened Bytes
  import opened Material
  import opened Tracker
  import opened Reloader

  datatype World = World(hash: Hash, decoders: Decoders)

  /** Where a poll stands: hashing the files it has read so far against the
      version it found in force; loading them again; about to run the callback of
      the version it published; or over. */
  datatype Pc = Hashing(seen: nat, done: seq<seq<byte>>) | Loading(now: int, done: seq<seq<byte>>) | Calling(version: nat) | Over

  datatype Label =
    | Swap(files: Reading)
    | Start(poll: nat)
    | Step(poll: nat, now: int)
    | Begin(conn: Conn)
    | Add(conn: Conn, root: seq<byte>)
    | Close(conn: Conn)

  /** The files and the reloader: every material ever in force, the last one is
      current, and the versions whose callback has run. */
  datatype Trust = Trust(files: Reading, published: seq<Material>, failures: nat, polls: map<nat, Pc>, called: set<nat>)

  /** The connections: the version each handshake verifies against, the verified
      root of each one added, the tracker, and the connections closed by the
      server and by a callback. */
  datatype Conns = Conns(snapshot: map<Conn, nat>, root: map<Conn, seq<byte>>, tracker: set<Pair>, left: set<Conn>,
                         retired: set<Conn>)

  datatype State = State(trust: Trust, conns: Conns)

  function Init(files: Reading, m: Material): State {
    State(Trust(files, [m], 0, map[], {}), Conns(map[], map[], {}, {}, {}))
  }

  /** The version in force; the first material is there from the start. */
  function Current(t: Trust): nat { if t.published == [] then 0 else |t.published| - 1 }

  function FileAt(r: Reading, k: nat): Option<seq<byte>> { if k == 0 then r.cert else if k == 1 then r.key else r.ca }

  /** One read of the digest pass; the third one compares. */
  function HashStep(w: World, t: Trust, p: nat, seen: nat, done: seq<seq<byte>>, now: int): Trust {
    match FileAt(t.files, |done|)
    case None => t.(failures := t.failures + 1, polls := t.polls[p := Over])
    case Some(b) =>
      if |done| < 2 then t.(polls := t.polls[p := Hashing(seen, done + [b])])
      else if seen < |t.published| && w.hash(Frame(done[0], done[1], b)) == t.published[seen].digest then
        t.(polls := t.polls[p := Over])
      else t.(polls := t.polls[p := Loading(now, [])])
  }

  /** One read of the load, and at last the validation and the publication. */
  function LoadStep(w: World, t: Trust, p: nat, now: int, done: seq<seq<byte>>): Trust {
    if |done| < 3 then
      match FileAt(t.files, |done|)
      case None => t.(failures := t.failures + 1, polls := t.polls[p := Over])
      case Some(b) => t.(polls := t.polls[p := Loading(now, done + [b])])
    else
      match ParseOf(w.hash, w.decoders, done[0], done[1], done[2], now)
      case Err(_) => t.(failures := t.failures + 1, polls := t.polls[p := Over])
      case Ok(m) => t.(published := t.published + [m], failures := 0, polls := t.polls[p := Calling(|t.published|)])
  }

  function TrustAfter(w: World, t: Trust, l: Label): Trust {
    match l
    case Swap(files) => t.(files := files)
    case Start(p) => if p in t.polls then t else t.(polls := t.polls[p := Hashing(Current(t), [])])
    case Step(p, now) =>
      if p !in t.polls then t
      else
        (match t.polls[p]
         case Hashing(seen, done) => HashStep(w, t, p, seen, done, now)
         case Loading(at, done) => LoadStep(w, t, p, at, done)
         case Calling(version) => t.(called := t.called + {version}, polls := t.polls[p := Over])
         case Over => t)
    case _ => t
  }

  /** The label runs the callback of this version. */
  predicate Calls(t: Trust, l: Label, version: nat) {
    l.Step? && l.poll in t.polls && t.polls[l.poll] == Calling(version) && version < |t.published|
  }

  /** The trusted root of a verified chain is one of the pool verified against. */
  predicate CanAdd(t: Trust, c: Conns, conn: Conn, root: seq<byte>) {
    && conn in c.snapshot && conn !in c.root && c.snapshot[conn] < |t.published|
    && root in t.published[c.snapshot[conn]].pool
  }

  ghost function Retire(c: Conns, roots: set<Fingerprint>): Conns {
    c.(tracker := Kept(c.tracker, roots), retired := c.retired + ConnsOf(Dropped(c.tracker, roots)))
  }

  function AddTo(w: World, c: Conns, conn: Conn, root: seq<byte>): Conns {
    c.(root := c.root[conn := root], tracker := c.tracker + {(Sum(w.hash, root), conn)})
  }

  /** The server closes a connection; only the first time does it leave the
      tracker. */
  function CloseOf(w: World, c: Conns, conn: Conn): Conns {
    if conn in c.root && conn !in c.left then
      c.(left := c.left + {conn}, tracker := c.tracker - {(Sum(w.hash, c.root[conn]), conn)})
    else c
  }

  ghost function ConnsAfter(w: World, t: Trust, c: Conns, l: Label): Conns {
    match l
    case Step(p, _) =>
      if p in t.polls && t.polls[p].Calling? && t.polls[p].version < |t.published| then
        Retire(c, t.published[t.polls[p].version].roots.Keys)
      else c
    case Begin(conn) => if conn in c.snapshot then c else c.(snapshot := c.snapshot[conn := Current(t)])
    case Add(conn, root) => if CanAdd(t, c, conn, root) then AddTo(w, c, conn, root) else c
    case Close(conn) => CloseOf(w, c, conn)
    case _ => c
  }

  ghost predicate Goes(w: World, s: State, l: Label, t: State) {
    t.trust == TrustAfter(w, s.trust, l) && t.conns == ConnsAfter(w, s.trust, s.conns, l)
  }

  /** Before the first label: New has loaded some material. */
  ghost predicate Starts(s: State) {
    s.trust.published != [] && s == Init(s.trust.files, s.trust.published[0])
  }

  ghost predicate IsRun(w: World, ls: seq<Label>, ss: seq<State>) {
    && |ss| == |ls| + 1
    && Starts(ss[0])
    && forall i {:trigger Goes(w, ss[i], ls[i], ss[i + 1])} :: 0 <= i < |ls| ==> Goes(w, ss[i], ls[i], ss[i + 1])
  }

  lemma TrustStep(w: World, ls: seq<Label>, ss: seq<State>, i: nat)
    requires IsRun(w, ls, ss) && i < |ls|
    ensures ss[i + 1].trust == TrustAfter(w, ss[i].trust, ls[i])
  {
    assert Goes(w, ss[i], ls[i], ss[i + 1]);
  }

  lemma ConnsStep(w: World, ls: seq<Label>, ss: seq<State>, i: nat)
    requires IsRun(w, ls, ss) && i < |ls|
    ensures ss[i + 1].conns == ConnsAfter(w, ss[i].trust, ss[i].conns, ls[i])
  {
    assert Goes(w, ss[i], ls[i], ss[i + 1]);
  }

  lemma FirstState(w: World, ls: seq<Label>, ss: seq<State>)
    requires IsRun(w, ls, ss)
    ensures ss[0].conns == Conns(map[], map[], {}, {}, {})
    ensures |ss[0].trust.published| == 1
    ensures ss[0].trust.called == {} && ss[0].trust.polls == map[]
  {
  }

  // ---- The material in force ----

  ghost predicate AllWhole(w: World, t: Trust) {
    forall v :: 0 <= v < |t.published| ==> Whole(w.hash, w.decoders, t.published[v])
  }

  /** What a step publishes is whole, and it forgets nothing. */
  lemma OneMaterialMore(w: World, t: Trust, l: Label)
    ensures var u := TrustAfter(w, t, l);
      && (AllWhole(w, t) ==> AllWhole(w, u))
      && t.published <= u.published && t.called <= u.called
  {
    var u := TrustAfter(w, t, l);
    if u.published != t.published {
      var done, m := t.polls[l.poll].done, u.published[|t.published|];
      var content := Content(done[0], done[1], done[2]);
      assert ParseOf(w.hash, w.decoders, content.cert, content.key, content.ca, t.polls[l.poll].now) == Ok(m);
      assert From(w.hash, w.decoders, m, content);
    }
  }

  /** A version counts as called only when its callback runs. */
  lemma OnlyCallsCall(w: World, t: Trust, l: Label, v: nat)
    requires v in TrustAfter(w, t, l).called && v !in t.called
    ensures l.Step? && l.poll in t.polls && t.polls[l.poll] == Calling(v)
  {
  }

  /** Torn reads, now with overlapping polls: every material ever in force is one
      that three contents gave as a whole, if the first one is. */
  lemma {:induction false} EveryMaterialIsWhole(w: World, ls: seq<Label>, ss: seq<State>, n: nat)
    requires IsRun(w, ls, ss) && AllWhole(w, ss[0].trust) && n < |ss|
    ensures AllWhole(w, ss[n].trust)
  {
    if n > 0 {
      EveryMaterialIsWhole(w, ls, ss, n - 1);
      OneMaterialMore(w, ss[n - 1].trust, ls[n - 1]);
      TrustStep(w, ls, ss, n - 1);
    }
  }

  /** Nothing published is forgotten, and no callback runs twice unnoticed. */
  lemma {:induction false} TrustGrows(w: World, ls: seq<Label>, ss: seq<State>, i: nat, j: nat)
    requires IsRun(w, ls, ss) && i <= j < |ss|
    ensures ss[i].trust.published <= ss[j].trust.published && ss[i].trust.called <= ss[j].trust.called
    ensures ss[i].trust.published != []
    decreases j, j - i
  {
    if i > 0 && i == j {
      TrustGrows(w, ls, ss, i - 1, i - 1);
      OneMaterialMore(w, ss[i - 1].trust, ls[i - 1]);
      TrustStep(w, ls, ss, i - 1);
    } else if i < j {
      TrustGrows(w, ls, ss, i, j - 1);
      OneMaterialMore(w, ss[j - 1].trust, ls[j - 1]);
      TrustStep(w, ls, ss, j - 1);
    }
  }

  // ---- Conservation ----

  ghost predicate Tracked(c: Conns, conn: Conn) { exists fp :: (fp, conn) in c.tracker }

  /** One pair per connection, under its verified root, for exactly those added
      and closed by no one. */
  ghost predicate Conserved(w: World, c: Conns) {
    && (forall p :: p in c.tracker ==> p.1 in c.root && p.0 == Sum(w.hash, c.root[p.1]))
    && (forall x :: x in c.root ==> ((Sum(w.hash, c.root[x]), x) in c.tracker <==> x !in c.left && x !in c.retired))
    && c.root.Keys <= c.snapshot.Keys && c.left <= c.root.Keys && c.retired <= c.root.Keys
  }

  lemma RetireConserves(w: World, c: Conns, roots: set<Fingerprint>)
    requires Conserved(w, c)
    ensures Conserved(w, Retire(c, roots))
  {
    forall x | x in c.root ensures x in ConnsOf(Dropped(c.tracker, roots))
        <==> (Sum(w.hash, c.root[x]), x) in Dropped(c.tracker, roots) {
      assert (Sum(w.hash, c.root[x]), x) in Dropped(c.tracker, roots) ==> x in ConnsOf(Dropped(c.tracker, roots));
    }
  }

  lemma AddConserves(w: World, t: Trust, c: Conns, conn: Conn, root: seq<byte>)
    requires Conserved(w, c) && CanAdd(t, c, conn, root)
    ensures Conserved(w, AddTo(w, c, conn, root))
  {
  }

  lemma CloseConserves(w: World, c: Conns, conn: Conn)
    requires Conserved(w, c)
    ensures Conserved(w, CloseOf(w, c, conn))
  {
  }

  lemma LabelConserves(w: World, t: Trust, c: Conns, l: Label)
    requires Conserved(w, c)
    ensures Conserved(w, ConnsAfter(w, t, c, l))
  {
    match l {
      case Step(p, _) =>
        if p in t.polls && t.polls[p].Calling? && t.polls[p].version < |t.published| {
          RetireConserves(w, c, t.published[t.polls[p].version].roots.Keys);
        }
      case Add(conn, root) => if CanAdd(t, c, conn, root) { AddConserves(w, t, c, conn, root); }
      case Close(conn) => CloseConserves(w, c, conn);
      case _ =>
    }
  }

  lemma {:induction false} EveryRunConserves(w: World, ls: seq<Label>, ss: seq<State>, n: nat)
    requires IsRun(w, ls, ss) && n < |ss|
    ensures Conserved(w, ss[n].conns)
  {
    if n == 0 {
      FirstState(w, ls, ss);
    } else {
      EveryRunConserves(w, ls, ss, n - 1);
      LabelConserves(w, ss[n - 1].trust, ss[n - 1].conns, ls[n - 1]);
      ConnsStep(w, ls, ss, n - 1);
    }
  }

  lemma TrackedMeans(w: World, c: Conns, conn: Conn)
    requires Conserved(w, c)
    ensures Tracked(c, conn) <==> conn in c.root && conn !in c.left && conn !in c.retired
    ensures forall f, g :: (f, conn) in c.tracker && (g, conn) in c.tracker ==> f == g
  {
    if fp :| (fp, conn) in c.tracker {
      assert (fp, conn).1 in c.root;
    }
  }

  /** Conservation, over every run: each connection ever added is tracked still,
      under one root, or was closed by the server or by a callback; a second
      close takes nothing away. */
  lemma EveryConnectionIsAccountedFor(w: World, ls: seq<Label>, ss: seq<State>, n: nat, conn: Conn)
    requires IsRun(w, ls, ss) && n < |ss|
    ensures var c := ss[n].conns;
      && (Tracked(c, conn) <==> conn in c.root && conn !in c.left && conn !in c.retired)
      && (forall f, g :: (f, conn) in c.tracker && (g, conn) in c.tracker ==> f == g)
      && (conn in c.left || conn in c.retired ==> conn in c.root && CloseOf(w, c, conn).tracker == c.tracker)
  {
    EveryRunConserves(w, ls, ss, n);
    TrackedMeans(w, ss[n].conns, conn);
    var c := ss[n].conns;
    if conn in c.root && (conn in c.left || conn in c.retired) {
      assert (Sum(w.hash, c.root[conn]), conn) !in c.tracker;
    }
  }
}
