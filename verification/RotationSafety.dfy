/** What the rotation keeps over every interleaving: a callback clears its
    tracker, a connection of a root no longer trusted has one possible origin,
    and exactly one kind of step brings it about. */
module RotationSafety {
  import opened Outcomes
  import opened Bytes
  import opened Material
  import opened Tracker
  import opened Reloader
  import opened Rotation

  // ---- Life of a connection ----

  /** A connection keeps its verified root and the version verified against. */
  ghost predicate Keeps(c: Conns, d: Conns) {
    && (forall x :: x in c.root ==> x in d.root && d.root[x] == c.root[x])
    && (forall x :: x in c.snapshot ==> x in d.snapshot && d.snapshot[x] == c.snapshot[x])
  }

  lemma LabelKeeps(w: World, t: Trust, c: Conns, l: Label)
    ensures Keeps(c, ConnsAfter(w, t, c, l))
  {
  }

  lemma StepKeeps(w: World, ls: seq<Label>, ss: seq<State>, i: nat)
    requires IsRun(w, ls, ss) && i < |ls|
    ensures Keeps(ss[i].conns, ss[i + 1].conns)
  {
    LabelKeeps(w, ss[i].trust, ss[i].conns, ls[i]);
    ConnsStep(w, ls, ss, i);
  }

  lemma {:induction false} ConnectionsKeep(w: World, ls: seq<Label>, ss: seq<State>, i: nat, j: nat)
    requires IsRun(w, ls, ss) && i <= j < |ss|
    ensures Keeps(ss[i].conns, ss[j].conns)
    decreases j - i
  {
    if i < j {
      ConnectionsKeep(w, ls, ss, i, j - 1);
      StepKeeps(w, ls, ss, j - 1);
      KeepsOnwards(ss[i].conns, ss[j - 1].conns, ss[j].conns);
    }
  }

  lemma KeepsOnwards(c: Conns, d: Conns, e: Conns)
    requires Keeps(c, d) && Keeps(d, e)
    ensures Keeps(c, e)
  {
  }

  /** The handshake of a connection began once, and verifies against the material
      that was in force then. */
  lemma {:induction false} BegunWith(w: World, ls: seq<Label>, ss: seq<State>, n: nat, conn: Conn) returns (b: nat)
    requires IsRun(w, ls, ss) && n < |ss| && conn in ss[n].conns.snapshot
    ensures b < n && ls[b] == Begin(conn) && conn !in ss[b].conns.snapshot
    ensures ss[n].conns.snapshot[conn] + 1 == |ss[b].trust.published|
  {
    if n == 0 {
      FirstState(w, ls, ss);
      assert false;
    } else if conn in ss[n - 1].conns.snapshot {
      b := BegunWith(w, ls, ss, n - 1, conn);
      StepKeeps(w, ls, ss, n - 1);
    } else {
      b := n - 1;
      ConnsStep(w, ls, ss, b);
      OnlyBeginsBegin(w, ss[b].trust, ss[b].conns, ls[b], conn);
      TrustGrows(w, ls, ss, b, b);
    }
  }

  lemma OnlyBeginsBegin(w: World, t: Trust, c: Conns, l: Label, conn: Conn)
    requires conn in ConnsAfter(w, t, c, l).snapshot && conn !in c.snapshot
    ensures l == Begin(conn) && ConnsAfter(w, t, c, l).snapshot[conn] == Current(t)
  {
  }

  /** Only an add puts a connection into the tracker. */
  lemma OnlyAddTracks(w: World, t: Trust, c: Conns, l: Label, conn: Conn)
    requires Tracked(ConnsAfter(w, t, c, l), conn) && !Tracked(c, conn)
    ensures l.Add? && l.conn == conn && CanAdd(t, c, conn, l.root)
  {
    var fp :| (fp, conn) in ConnsAfter(w, t, c, l).tracker;
    assert (fp, conn) !in c.tracker;
  }

  /** The one add a tracked connection owes its place to, and that it has been
      tracked ever since. */
  lemma {:induction false} AddedBy(w: World, ls: seq<Label>, ss: seq<State>, n: nat, conn: Conn) returns (i: nat)
    requires IsRun(w, ls, ss) && n < |ss| && Tracked(ss[n].conns, conn)
    ensures i < n && ls[i].Add? && ls[i].conn == conn && CanAdd(ss[i].trust, ss[i].conns, conn, ls[i].root)
    ensures forall k :: i < k <= n ==> Tracked(ss[k].conns, conn)
  {
    if n == 0 {
      FirstState(w, ls, ss);
      assert false;
    } else if Tracked(ss[n - 1].conns, conn) {
      i := AddedBy(w, ls, ss, n - 1, conn);
    } else {
      ConnsStep(w, ls, ss, n - 1);
      OnlyAddTracks(w, ss[n - 1].trust, ss[n - 1].conns, ls[n - 1], conn);
      i := n - 1;
    }
  }

  /** The root a connection was added with is the root it has. */
  lemma RootOfAdd(w: World, ls: seq<Label>, ss: seq<State>, i: nat, n: nat)
    requires IsRun(w, ls, ss) && i < n < |ss| && ls[i].Add? && CanAdd(ss[i].trust, ss[i].conns, ls[i].conn, ls[i].root)
    ensures ls[i].conn in ss[n].conns.root && ss[n].conns.root[ls[i].conn] == ls[i].root
  {
    ConnsStep(w, ls, ss, i);
    assert ls[i].conn in ss[i + 1].conns.root && ss[i + 1].conns.root[ls[i].conn] == ls[i].root;
    ConnectionsKeep(w, ls, ss, i + 1, n);
  }

  // ---- Callbacks ----

  lemma CallRetires(w: World, t: Trust, c: Conns, l: Label, v: nat)
    requires Calls(t, l, v)
    ensures ConnsAfter(w, t, c, l) == Retire(c, t.published[v].roots.Keys)
  {
  }

  lemma RetireKeepsExactly(w: World, c: Conns, roots: set<Fingerprint>, conn: Conn)
    requires Conserved(w, c) && Tracked(c, conn)
    ensures conn in c.root && (Tracked(Retire(c, roots), conn) <==> Sum(w.hash, c.root[conn]) in roots)
    ensures conn in Retire(c, roots).retired <==> Sum(w.hash, c.root[conn]) !in roots
  {
    TrackedMeans(w, c, conn);
    RetireConserves(w, c, roots);
    TrackedMeans(w, Retire(c, roots), conn);
    var p := (Sum(w.hash, c.root[conn]), conn);
    assert p in c.tracker;
    assert p in Retire(c, roots).tracker <==> p.0 in roots;
  }

  /** A callback closes exactly the tracked connections whose root its material
      does not hold, whichever poll it belongs to. */
  lemma NextCallbackDecides(w: World, ls: seq<Label>, ss: seq<State>, n: nat, v: nat, conn: Conn)
    requires IsRun(w, ls, ss) && n < |ls| && Calls(ss[n].trust, ls[n], v) && Tracked(ss[n].conns, conn)
    ensures conn in ss[n].conns.root
    ensures var trusted := Sum(w.hash, ss[n].conns.root[conn]) in ss[n].trust.published[v].roots;
      (Tracked(ss[n + 1].conns, conn) <==> trusted) && (conn in ss[n + 1].conns.retired <==> !trusted)
  {
    EveryRunConserves(w, ls, ss, n);
    ConnsStep(w, ls, ss, n);
    CallRetires(w, ss[n].trust, ss[n].conns, ls[n], v);
    RetireKeepsExactly(w, ss[n].conns, ss[n].trust.published[v].roots.Keys, conn);
  }

  /** Rotation safety. Once the callback of a material has run, every connection
      added before it that is still tracked, at any later time, has its root in
      that material. */
  lemma CallbackClears(w: World, ls: seq<Label>, ss: seq<State>, i: nat, v: nat, n: nat, conn: Conn)
    requires IsRun(w, ls, ss) && i < n < |ss| && Calls(ss[i].trust, ls[i], v)
    requires conn in ss[i].conns.root && Tracked(ss[n].conns, conn)
    ensures v < |ss[n].trust.published| && conn in ss[n].conns.root
    ensures Sum(w.hash, ss[n].conns.root[conn]) in ss[n].trust.published[v].roots
  {
    var a := AddedBy(w, ls, ss, n, conn);
    if i < a {
      ConnectionsKeep(w, ls, ss, i, a);
    }
    assert a < i;
    NextCallbackDecides(w, ls, ss, i, v, conn);
    ConnectionsKeep(w, ls, ss, i, n);
    TrustGrows(w, ls, ss, i, n);
  }

  /** A connection is retired only by a callback whose material does not hold its
      root, while it was tracked. */
  lemma {:induction false} RetiredBy(w: World, ls: seq<Label>, ss: seq<State>, n: nat, conn: Conn) returns (k: nat, v: nat)
    requires IsRun(w, ls, ss) && n < |ss| && conn in ss[n].conns.retired
    ensures k < n && Calls(ss[k].trust, ls[k], v) && Tracked(ss[k].conns, conn)
    ensures conn in ss[k].conns.root && Sum(w.hash, ss[k].conns.root[conn]) !in ss[k].trust.published[v].roots
  {
    if n == 0 {
      FirstState(w, ls, ss);
      assert false;
    } else if conn in ss[n - 1].conns.retired {
      k, v := RetiredBy(w, ls, ss, n - 1, conn);
    } else {
      ConnsStep(w, ls, ss, n - 1);
      k := n - 1;
      v := OnlyCallsRetire(w, ss[k].trust, ss[k].conns, ls[k], conn);
      NextCallbackDecides(w, ls, ss, k, v, conn);
    }
  }

  /** The owner's close ends the tracking of its connection and of no other, and
      counts once. */
  lemma OwnersClose(w: World, ls: seq<Label>, ss: seq<State>, n: nat, conn: Conn)
    requires IsRun(w, ls, ss) && n < |ls| && ls[n] == Close(conn) && conn in ss[n].conns.root
    ensures !Tracked(ss[n + 1].conns, conn) && conn in ss[n + 1].conns.left
    ensures forall c :: c != conn ==> (Tracked(ss[n + 1].conns, c) <==> Tracked(ss[n].conns, c))
    ensures conn in ss[n].conns.left ==> ss[n + 1].conns == ss[n].conns
  {
    EveryRunConserves(w, ls, ss, n);
    EveryRunConserves(w, ls, ss, n + 1);
    ConnsStep(w, ls, ss, n);
    TrackedMeans(w, ss[n + 1].conns, conn);
    forall c | c != conn ensures Tracked(ss[n + 1].conns, c) <==> Tracked(ss[n].conns, c) {
      TrackedMeans(w, ss[n].conns, c);
      TrackedMeans(w, ss[n + 1].conns, c);
    }
  }

  lemma OnlyCallsRetire(w: World, t: Trust, c: Conns, l: Label, conn: Conn) returns (v: nat)
    requires conn in ConnsAfter(w, t, c, l).retired && conn !in c.retired
    ensures Calls(t, l, v) && Tracked(c, conn)
  {
    v := t.polls[l.poll].version;
    var p :| p in Dropped(c.tracker, t.published[v].roots.Keys) && p.1 == conn;
    assert (p.0, conn) in c.tracker;
  }

  // ---- Where a connection of a lost root comes from ----

  ghost predicate Trusts(w: World, t: Trust, v: nat, root: seq<byte>) {
    v < |t.published| && Sum(w.hash, root) in t.published[v].roots
  }

  /** Tracked, and its root is not in the material in force. */
  ghost predicate Stale(w: World, s: State, conn: Conn) {
    Tracked(s.conns, conn) && conn in s.conns.root && !Trusts(w, s.trust, Current(s.trust), s.conns.root[conn])
  }

  /** What was verified against a version has its root in that version. */
  lemma VerifiedIsTrusted(w: World, t: Trust, c: Conns, conn: Conn, root: seq<byte>)
    requires AllWhole(w, t) && CanAdd(t, c, conn, root)
    ensures Trusts(w, t, c.snapshot[conn], root)
  {
    var m := t.published[c.snapshot[conn]];
    var content: Content :| From(w.hash, w.decoders, m, content);
    var now :| ParseOf(w.hash, w.decoders, content.cert, content.key, content.ca, now) == Ok(m);
    ParsedBundle(w.hash, w.decoders, content.cert, content.key, content.ca, now, m);
  }

  ghost predicate PendingKnown(t: Trust) {
    forall p :: p in t.polls && t.polls[p].Calling? ==> 1 <= t.polls[p].version < |t.published|
  }

  ghost predicate CallsKnown(t: Trust) {
    PendingKnown(t) && forall v :: v in t.called ==> 1 <= v < |t.published|
  }

  lemma PollKnown(t: Trust, p: nat, pc: Pc, u: Trust)
    requires PendingKnown(t) && u.polls == t.polls[p := pc] && |t.published| <= |u.published|
    requires pc.Calling? ==> 1 <= pc.version < |u.published|
    ensures PendingKnown(u)
  {
  }

  lemma PendingOfStep(w: World, t: Trust, l: Label)
    requires t.published != [] && PendingKnown(t)
    ensures PendingKnown(TrustAfter(w, t, l))
  {
    var u := TrustAfter(w, t, l);
    OnePollMoves(w, t, l);
    if u.polls != t.polls {
      PollKnown(t, l.poll, u.polls[l.poll], u);
    }
  }

  /** A label moves one poll at most, and one that has just published calls. */
  lemma OnePollMoves(w: World, t: Trust, l: Label)
    requires t.published != []
    ensures var u := TrustAfter(w, t, l);
      && |t.published| <= |u.published|
      && (u.polls != t.polls ==>
            && (l.Start? || l.Step?) && l.poll in u.polls && u.polls == t.polls[l.poll := u.polls[l.poll]]
            && (u.polls[l.poll].Calling? ==> u.polls[l.poll].version == |t.published| < |u.published|))
  {
  }

  lemma CallsOfStep(w: World, t: Trust, l: Label)
    requires t.published != [] && CallsKnown(t)
    ensures CallsKnown(TrustAfter(w, t, l))
  {
    PendingOfStep(w, t, l);
    OneMaterialMore(w, t, l);
  }

  lemma {:induction false} CallsAreKnown(w: World, ls: seq<Label>, ss: seq<State>, n: nat)
    requires IsRun(w, ls, ss) && n < |ss|
    ensures CallsKnown(ss[n].trust)
  {
    if n == 0 {
      FirstState(w, ls, ss);
    } else {
      CallsAreKnown(w, ls, ss, n - 1);
      TrustGrows(w, ls, ss, n - 1, n);
      CallsOfStep(w, ss[n - 1].trust, ls[n - 1]);
      TrustStep(w, ls, ss, n - 1);
    }
  }

  /** In every reachable state, a tracked connection whose root is not in the
      material in force began its handshake before that material was published,
      and was verified against what was in force then, which held its root; and
      the callback of the material in force has not run since it was added: it is
      pending still, or had run before the add. */
  lemma StaleOrigin(w: World, ls: seq<Label>, ss: seq<State>, n: nat, conn: Conn) returns (b: nat, i: nat)
    requires IsRun(w, ls, ss) && AllWhole(w, ss[0].trust) && n < |ss| && Stale(w, ss[n], conn)
    ensures i < n && ls[i].Add? && ls[i].conn == conn && CanAdd(ss[i].trust, ss[i].conns, conn, ls[i].root)
    ensures ls[i].root == ss[n].conns.root[conn]
    ensures b < i && ls[b] == Begin(conn) && 1 <= |ss[b].trust.published| <= Current(ss[n].trust)
    ensures Trusts(w, ss[b].trust, Current(ss[b].trust), ls[i].root)
    ensures var v := Current(ss[n].trust);
      && (forall k :: i < k < n ==> !Calls(ss[k].trust, ls[k], v))
      && (v in ss[n].trust.called ==> v in ss[i].trust.called)
  {
    i := AddedBy(w, ls, ss, n, conn);
    RootOfAdd(w, ls, ss, i, n);
    NotCalledSince(w, ls, ss, i, n, conn);
    b := VerifiedWhenBegun(w, ls, ss, i);
    TrustGrows(w, ls, ss, b, n);
    TrustsOnwards(w, ss[b].trust, ss[n].trust, Current(ss[b].trust), ls[i].root);
  }

  /** What is added has its root in the material in force when its handshake began. */
  lemma VerifiedWhenBegun(w: World, ls: seq<Label>, ss: seq<State>, i: nat) returns (b: nat)
    requires IsRun(w, ls, ss) && AllWhole(w, ss[0].trust) && i < |ls|
    requires ls[i].Add? && CanAdd(ss[i].trust, ss[i].conns, ls[i].conn, ls[i].root)
    ensures b < i && ls[b] == Begin(ls[i].conn) && ss[b].trust.published != []
    ensures Trusts(w, ss[b].trust, Current(ss[b].trust), ls[i].root)
  {
    b := BegunWith(w, ls, ss, i, ls[i].conn);
    AddedIsTrusted(w, ls, ss, i);
    TrustGrows(w, ls, ss, b, i);
    TrustsOnwards(w, ss[b].trust, ss[i].trust, Current(ss[b].trust), ls[i].root);
  }

  lemma AddedIsTrusted(w: World, ls: seq<Label>, ss: seq<State>, i: nat)
    requires IsRun(w, ls, ss) && AllWhole(w, ss[0].trust) && i < |ls|
    requires ls[i].Add? && CanAdd(ss[i].trust, ss[i].conns, ls[i].conn, ls[i].root)
    ensures Trusts(w, ss[i].trust, ss[i].conns.snapshot[ls[i].conn], ls[i].root)
  {
    EveryMaterialIsWhole(w, ls, ss, i);
    VerifiedIsTrusted(w, ss[i].trust, ss[i].conns, ls[i].conn, ls[i].root);
  }

  lemma TrustsOnwards(w: World, t: Trust, u: Trust, v: nat, root: seq<byte>)
    requires t.published <= u.published && v < |t.published|
    ensures v <= Current(u) && (Trusts(w, u, v, root) <==> Trusts(w, t, v, root))
  {
    assert u.published[v] == t.published[v];
  }

  lemma NotCalledSince(w: World, ls: seq<Label>, ss: seq<State>, i: nat, n: nat, conn: Conn)
    requires IsRun(w, ls, ss) && i < n < |ss| && Stale(w, ss[n], conn)
    requires ls[i].Add? && ls[i].conn == conn && CanAdd(ss[i].trust, ss[i].conns, conn, ls[i].root)
    ensures var v := Current(ss[n].trust);
      && (forall k :: i < k < n ==> !Calls(ss[k].trust, ls[k], v))
      && (v in ss[n].trust.called ==> v in ss[i].trust.called)
  {
    var v := Current(ss[n].trust);
    forall k | i < k < n ensures !Calls(ss[k].trust, ls[k], v) {
      if Calls(ss[k].trust, ls[k], v) {
        RootOfAdd(w, ls, ss, i, k);
        CallbackClears(w, ls, ss, k, v, n, conn);
      }
    }
    if v in ss[n].trust.called && v !in ss[i].trust.called {
      var k := FirstCall(w, ls, ss, i, n, v);
    }
  }

  // ---- Every publication is called back ----

  /** Each published version's callback has run, or is some poll's to run. */
  ghost predicate CallbacksOwed(t: Trust) {
    forall v :: 1 <= v < |t.published| ==> v in t.called || Pending(t, v)
  }

  ghost predicate Pending(t: Trust, v: nat) { exists p :: p in t.polls && t.polls[p] == Calling(v) }

  lemma OwedStays(w: World, t: Trust, l: Label, v: nat)
    requires v in t.called || Pending(t, v)
    ensures v in TrustAfter(w, t, l).called || Pending(TrustAfter(w, t, l), v)
  {
    var u := TrustAfter(w, t, l);
    if v !in t.called && v !in u.called {
      var p :| p in t.polls && t.polls[p] == Calling(v);
      assert p in u.polls && u.polls[p] == Calling(v);
    }
  }

  lemma OwedOfStep(w: World, t: Trust, l: Label)
    requires CallbacksOwed(t)
    ensures CallbacksOwed(TrustAfter(w, t, l))
  {
    var u := TrustAfter(w, t, l);
    forall v | 1 <= v < |u.published| ensures v in u.called || Pending(u, v) {
      if v < |t.published| {
        OwedStays(w, t, l, v);
      } else {
        assert l.poll in u.polls && u.polls[l.poll] == Calling(v);
      }
    }
  }

  /** No publication goes unnoticed: in every reachable state the callback of each
      material after the first has run or is pending, so a tracker hears of every
      rotation however many polls overlap. */
  lemma {:induction false} EveryPublicationIsCalledBack(w: World, ls: seq<Label>, ss: seq<State>, n: nat)
    requires IsRun(w, ls, ss) && n < |ss|
    ensures CallbacksOwed(ss[n].trust)
  {
    if n == 0 {
      FirstState(w, ls, ss);
    } else {
      EveryPublicationIsCalledBack(w, ls, ss, n - 1);
      OwedOfStep(w, ss[n - 1].trust, ls[n - 1]);
      TrustStep(w, ls, ss, n - 1);
    }
  }

  // ---- Where a stale connection was called back ----

  /** A callback counts as run only by running. */
  lemma {:induction false} FirstCall(w: World, ls: seq<Label>, ss: seq<State>, i: nat, n: nat, v: nat) returns (k: nat)
    requires IsRun(w, ls, ss) && i <= n < |ss| && v in ss[n].trust.called && v !in ss[i].trust.called
    ensures i <= k < n && Calls(ss[k].trust, ls[k], v)
    decreases n - i
  {
    if v in ss[n - 1].trust.called {
      k := FirstCall(w, ls, ss, i, n - 1, v);
    } else {
      k := n - 1;
      TrustStep(w, ls, ss, k);
      OnlyCallsCall(w, ss[k].trust, ls[k], v);
      CallsAreKnown(w, ls, ss, k);
    }
  }

  // ---- Exactly when all is trusted ----

  /** No callback of the material in force is outstanding. */
  ghost predicate Settled(t: Trust) { Current(t) == 0 || Current(t) in t.called }

  /** A connection is added under a root the material in force, its callback
      already run, does not hold: what a second look at the current material
      inside the add would see. */
  ghost predicate LateAdd(w: World, s: State, l: Label) {
    && l.Add? && CanAdd(s.trust, s.conns, l.conn, l.root)
    && Settled(s.trust) && !Trusts(w, s.trust, Current(s.trust), l.root)
  }

  lemma LateAddIsStale(w: World, ls: seq<Label>, ss: seq<State>, i: nat, n: nat)
    requires IsRun(w, ls, ss) && i < n < |ss| && LateAdd(w, ss[i], ls[i])
    requires Current(ss[i].trust) == Current(ss[n].trust) && Tracked(ss[n].conns, ls[i].conn)
    ensures Stale(w, ss[n], ls[i].conn)
  {
    RootOfAdd(w, ls, ss, i, n);
    TrustGrows(w, ls, ss, i, n);
  }

  lemma StaleIsLateAdd(w: World, ls: seq<Label>, ss: seq<State>, n: nat, conn: Conn) returns (i: nat)
    requires IsRun(w, ls, ss) && AllWhole(w, ss[0].trust) && n < |ss| && Settled(ss[n].trust) && Stale(w, ss[n], conn)
    ensures i < n && LateAdd(w, ss[i], ls[i]) && ls[i].conn == conn && Current(ss[i].trust) == Current(ss[n].trust)
  {
    var b;
    b, i := StaleOrigin(w, ls, ss, n, conn);
    TrustGrows(w, ls, ss, i, n);
    CallsAreKnown(w, ls, ss, i);
    CalledIsCurrent(ss[i].trust, ss[n].trust);
  }

  /** Where the last version was called already, nothing was published since. */
  lemma CalledIsCurrent(t: Trust, u: Trust)
    requires t.published <= u.published && CallsKnown(t) && Current(u) in t.called
    ensures Current(t) == Current(u) && t.published == u.published
  {
  }

  /** In a settled state every tracked connection is trusted by the material in
      force if and only if none of them was added late. */
  lemma SettledIsTrustedExactlyWithoutLateAdds(w: World, ls: seq<Label>, ss: seq<State>, n: nat)
    requires IsRun(w, ls, ss) && AllWhole(w, ss[0].trust) && n < |ss| && Settled(ss[n].trust)
    ensures (exists conn :: Stale(w, ss[n], conn))
        <==> (exists i :: 0 <= i < n && LateAdd(w, ss[i], ls[i]) && Current(ss[i].trust) == Current(ss[n].trust)
                          && Tracked(ss[n].conns, ls[i].conn))
  {
    if conn :| Stale(w, ss[n], conn) {
      var i := StaleIsLateAdd(w, ls, ss, n, conn);
    }
    if i :| 0 <= i < n && LateAdd(w, ss[i], ls[i]) && Current(ss[i].trust) == Current(ss[n].trust)
            && Tracked(ss[n].conns, ls[i].conn) {
      LateAddIsStale(w, ls, ss, i, n);
    }
  }
}
