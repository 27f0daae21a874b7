/** The promise that retiring a CA closes the connections it had verified does
    not hold of a handshake that spans the publication and its callback. Here is
    the run, for any two contents of which the second drops a root. */
module RotationRace {
  import opened Outcomes
  import opened Bytes
  import opened Material
  import opened Tracker
  import opened Reloader
  import opened Rotation
  import opened RotationSafety

  /** A run, one step longer. */
  lemma OneMore(w: World, ls: seq<Label>, ss: seq<State>, l: Label, s: State) returns (ms: seq<Label>, ts: seq<State>)
    requires IsRun(w, ls, ss) && Goes(w, ss[|ls|], l, s)
    ensures IsRun(w, ms, ts) && |ms| == |ls| + 1 && ts[|ms|] == s && ts[0] == ss[0]
  {
    ms, ts := ls + [l], ss + [s];
    forall i | 0 <= i < |ms| ensures Goes(w, ts[i], ms[i], ts[i + 1]) {
      if i < |ls| {
        assert Goes(w, ss[i], ls[i], ss[i + 1]);
      }
    }
  }

  lemma OneRead(w: World, ls: seq<Label>, ss: seq<State>, now: int, pc: Pc) returns (ms: seq<Label>, ts: seq<State>)
    requires IsRun(w, ls, ss)
    requires var s := ss[|ls|].trust;
      0 in s.polls && !s.polls[0].Calling? && TrustAfter(w, s, Step(0, now)) == s.(polls := s.polls[0 := pc])
    ensures IsRun(w, ms, ts) && ts[0] == ss[0]
    ensures ts[|ms|] == ss[|ls|].(trust := ss[|ls|].trust.(polls := ss[|ls|].trust.polls[0 := pc]))
  {
    var s := ss[|ls|];
    ms, ts := OneMore(w, ls, ss, Step(0, now), s.(trust := s.trust.(polls := s.trust.polls[0 := pc])));
  }

  /** From a run's end where no poll was yet, a poll over standing new content up
      to the point where it has read everything twice. */
  lemma ReadTwice(w: World, ls: seq<Label>, ss: seq<State>, t: Content, now: int) returns (ms: seq<Label>, ts: seq<State>)
    requires IsRun(w, ls, ss)
    requires var s := ss[|ls|].trust;
      && s.files == Readable(t) && s.polls == map[]
      && |s.published| == 1 && s.published[0].digest != w.hash(Framed(t))
    ensures IsRun(w, ms, ts) && ts[0] == ss[0]
    ensures ts[|ms|] == ss[|ls|].(trust := ss[|ls|].trust.(polls := map[0 := Loading(now, [t.cert, t.key, t.ca])]))
  {
    var s := ss[|ls|];
    assert [] + [t.cert] == [t.cert] && [t.cert] + [t.key] == [t.cert, t.key];
    assert [t.cert, t.key] + [t.ca] == [t.cert, t.key, t.ca];
    ms, ts := OneMore(w, ls, ss, Start(0), s.(trust := s.trust.(polls := map[0 := Hashing(0, [])])));
    ms, ts := OneRead(w, ms, ts, now, Hashing(0, [t.cert]));
    ms, ts := OneRead(w, ms, ts, now, Hashing(0, [t.cert, t.key]));
    ms, ts := OneRead(w, ms, ts, now, Loading(now, []));
    ms, ts := OneRead(w, ms, ts, now, Loading(now, [t.cert]));
    ms, ts := OneRead(w, ms, ts, now, Loading(now, [t.cert, t.key]));
    ms, ts := OneRead(w, ms, ts, now, Loading(now, [t.cert, t.key, t.ca]));
    assert ts[|ms|].trust.polls == map[0 := Loading(now, [t.cert, t.key, t.ca])];
  }

  /** Then it publishes, and its callback runs. */
  lemma PublishAndCall(w: World, ls: seq<Label>, ss: seq<State>, t: Content, now: int, m0: Material, m1: Material)
    returns (ms: seq<Label>, ts: seq<State>)
    requires IsRun(w, ls, ss) && ParseOf(w.hash, w.decoders, t.cert, t.key, t.ca, now) == Ok(m1)
    requires var s := ss[|ls|].trust; && s.polls == map[0 := Loading(now, [t.cert, t.key, t.ca])] && s.published == [m0]
                                      && s.called == {}
    ensures IsRun(w, ms, ts) && ts[0] == ss[0]
    ensures ts[|ms|].trust == ss[|ls|].trust.(published := [m0, m1], failures := 0, polls := map[0 := Over], called := {1})
    ensures ts[|ms|].conns == Retire(ss[|ls|].conns, m1.roots.Keys)
  {
    var s := ss[|ls|];
    var published := s.trust.(published := [m0, m1], failures := 0, polls := map[0 := Calling(1)]);
    assert s.trust.polls[0 := Calling(1)] == map[0 := Calling(1)] && [m0] + [m1] == [m0, m1];
    ms, ts := OneMore(w, ls, ss, Step(0, now), s.(trust := published));
    var settled := published.(called := {1}, polls := map[0 := Over]);
    assert published.polls[0 := Over] == map[0 := Over];
    ms, ts := OneMore(w, ms, ts, Step(0, now), State(settled, Retire(s.conns, m1.roots.Keys)));
  }

  const FIRST := Conn(0)

  const BEGUN := Conns(map[FIRST := 0], map[], {}, {}, {})

  lemma BeginAndRead(w: World, m0: Material, t: Content, now: int) returns (ls: seq<Label>, ss: seq<State>)
    requires m0.digest != w.hash(Framed(t))
    ensures IsRun(w, ls, ss) && ss[0] == Init(Readable(t), m0) && ss[|ls|].conns == BEGUN
    ensures ss[|ls|].trust == Trust(Readable(t), [m0], 0, map[0 := Loading(now, [t.cert, t.key, t.ca])], {})
  {
    ls, ss := [], [Init(Readable(t), m0)];
    ls, ss := OneMore(w, ls, ss, Begin(FIRST), ss[0].(conns := BEGUN));
    ls, ss := ReadTwice(w, ls, ss, t, now);
  }

  lemma AddAtLast(w: World, ls: seq<Label>, ss: seq<State>, m0: Material, m1: Material, root: seq<byte>)
    returns (ms: seq<Label>, ts: seq<State>)
    requires IsRun(w, ls, ss) && ss[|ls|].conns == BEGUN && ss[|ls|].trust.published == [m0, m1] && ss[|ls|].trust.called == {1}
    requires root in m0.pool && Sum(w.hash, root) !in m1.roots
    ensures IsRun(w, ms, ts) && ts[0] == ss[0]
    ensures Settled(ts[|ms|].trust) && ts[|ms|].trust.published == [m0, m1] && Stale(w, ts[|ms|], FIRST)
  {
    ms, ts := OneMore(w, ls, ss, Add(FIRST, root), State(ss[|ls|].trust, AddTo(w, BEGUN, FIRST, root)));
    assert (Sum(w.hash, root), FIRST) in ts[|ms|].conns.tracker;
  }

  /** The race. A handshake begins under m0; the files already hold content that
      is valid without the root; the poll publishes it and its callback finds
      nothing to close; then the handshake adds its connection. All is settled,
      and the connection of the retired root is tracked. */
  lemma HandshakeAcrossARotation(w: World, m0: Material, t: Content, now: int, m1: Material, root: seq<byte>)
    returns (ls: seq<Label>, ss: seq<State>)
    requires ParseOf(w.hash, w.decoders, t.cert, t.key, t.ca, now) == Ok(m1) && m0.digest != w.hash(Framed(t))
    requires root in m0.pool && Sum(w.hash, root) !in m1.roots
    ensures IsRun(w, ls, ss) && ss[0] == Init(Readable(t), m0)
    ensures Settled(ss[|ls|].trust) && ss[|ls|].trust.published == [m0, m1] && Stale(w, ss[|ls|], FIRST)
  {
    ls, ss := BeginAndRead(w, m0, t, now);
    ls, ss := PublishAndCall(w, ls, ss, t, now, m0, m1);
    assert Retire(BEGUN, m1.roots.Keys) == BEGUN;
    ls, ss := AddAtLast(w, ls, ss, m0, m1, root);
  }

  // ---- Torn reads ----

  /** A poll that has hashed new content and is about to load. */
  lemma HashNew(w: World, m0: Material, t: Content, now: int) returns (ls: seq<Label>, ss: seq<State>)
    requires m0.digest != w.hash(Framed(t))
    ensures IsRun(w, ls, ss) && ss[0] == Init(Readable(t), m0)
    ensures ss[|ls|] == ss[0].(trust := Trust(Readable(t), [m0], 0, map[0 := Loading(now, [])], {}))
  {
    assert [] + [t.cert] == [t.cert] && [t.cert] + [t.key] == [t.cert, t.key];
    ls, ss := [], [Init(Readable(t), m0)];
    ls, ss := OneMore(w, ls, ss, Start(0), ss[0].(trust := ss[0].trust.(polls := map[0 := Hashing(0, [])])));
    ls, ss := OneRead(w, ls, ss, now, Hashing(0, [t.cert]));
    ls, ss := OneRead(w, ls, ss, now, Hashing(0, [t.cert, t.key]));
    ls, ss := OneRead(w, ls, ss, now, Loading(now, []));
    assert ss[|ls|].trust.polls == map[0 := Loading(now, [])];
  }

  /** The files are swapped, and the next one is read. */
  lemma SwapAndRead(w: World, ls: seq<Label>, ss: seq<State>, t: Content, now: int, done: seq<seq<byte>>)
    returns (ms: seq<Label>, ts: seq<State>)
    requires IsRun(w, ls, ss) && |done| < 3 && ss[|ls|].trust.polls == map[0 := Loading(now, done)]
    ensures IsRun(w, ms, ts) && ts[0] == ss[0]
    ensures var next := if |done| == 0 then t.cert else if |done| == 1 then t.key else t.ca;
      ts[|ms|] == ss[|ls|].(trust := ss[|ls|].trust.(files := Readable(t), polls := map[0 := Loading(now, done + [next])]))
  {
    var s := ss[|ls|];
    var next := if |done| == 0 then t.cert else if |done| == 1 then t.key else t.ca;
    ms, ts := OneMore(w, ls, ss, Swap(Readable(t)), s.(trust := s.trust.(files := Readable(t))));
    ms, ts := OneRead(w, ms, ts, now, Loading(now, done + [next]));
    assert ts[|ms|].trust.polls == map[0 := Loading(now, done + [next])];
  }

  /** Parsed as a whole is not the same as having stood together: of any three
      contents whose certificate, key and bundle parse together, that material is
      published although the files held the first, the second and the third content
      one after the other. */
  lemma TornMaterialIsPublished(w: World, m0: Material, a: Content, b: Content, c: Content, now: int, m: Material)
    returns (ls: seq<Label>, ss: seq<State>)
    requires m0.digest != w.hash(Framed(a)) && ParseOf(w.hash, w.decoders, a.cert, b.key, c.ca, now) == Ok(m)
    ensures IsRun(w, ls, ss) && ss[0] == Init(Readable(a), m0)
    ensures ss[|ls|].trust.published == [m0, m] && ss[|ls|].trust.files == Readable(c)
  {
    assert [] + [a.cert] == [a.cert] && [a.cert] + [b.key] == [a.cert, b.key];
    assert [a.cert, b.key] + [c.ca] == [a.cert, b.key, c.ca];
    ls, ss := HashNew(w, m0, a, now);
    ls, ss := SwapAndRead(w, ls, ss, a, now, []);
    ls, ss := SwapAndRead(w, ls, ss, b, now, [a.cert]);
    ls, ss := SwapAndRead(w, ls, ss, c, now, [a.cert, b.key]);
    ls, ss := PublishLoaded(w, ls, ss, [a.cert, b.key, c.ca], now, m0, m);
  }

  lemma PublishLoaded(w: World, ls: seq<Label>, ss: seq<State>, done: seq<seq<byte>>, now: int, m0: Material, m: Material)
    returns (ms: seq<Label>, ts: seq<State>)
    requires IsRun(w, ls, ss) && |done| == 3 && ParseOf(w.hash, w.decoders, done[0], done[1], done[2], now) == Ok(m)
    requires ss[|ls|].trust.polls == map[0 := Loading(now, done)] && ss[|ls|].trust.published == [m0]
    ensures IsRun(w, ms, ts) && ts[0] == ss[0]
    ensures ts[|ms|].trust.published == [m0, m] && ts[|ms|].trust.files == ss[|ls|].trust.files
  {
    var s := ss[|ls|];
    var polls := map[0 := Calling(1)];
    assert s.trust.polls[0 := Calling(1)] == polls && [m0] + [m] == [m0, m];
    ms, ts := OneMore(w, ls, ss, Step(0, now), s.(trust := s.trust.(published := [m0, m], failures := 0, polls := polls)));
  }
}
