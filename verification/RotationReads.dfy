/** Torn reads, named: what is published was read file by file, each at its own
    instant and in the order certificate, key, bundle, though the three may never
    have stood together. */
module RotationReads {
  import opened Outcomes
  import opened Bytes
  import opened Material
  import opened Reloader
  import opened Rotation

  /** At these instants before `n`, one behind the other, the files held these
      contents, the first one the first file and so on. */
  ghost predicate ReadAt(ss: seq<State>, n: nat, done: seq<seq<byte>>, at: seq<nat>) {
    && n <= |ss| && |at| == |done| <= 3
    && (forall k :: 0 <= k < |at| ==> at[k] < n && FileAt(ss[at[k]].trust.files, k) == Some(done[k]))
    && forall j, k :: 0 <= j < k < |at| ==> at[j] < at[k]
  }

  ghost predicate WasRead(ss: seq<State>, n: nat, done: seq<seq<byte>>) { exists at :: ReadAt(ss, n, done, at) }

  /** Three contents read one behind the other and parsed as a whole. */
  ghost predicate CameFrom(w: World, ss: seq<State>, n: nat, m: Material) {
    exists done, now :: |done| == 3 && WasRead(ss, n, done) && ParseOf(w.hash, w.decoders, done[0], done[1], done[2], now) == Ok(m)
  }

  /** What every loading poll has read so far, and where all materials but the
      first came from. */
  ghost predicate Traced(w: World, ss: seq<State>, n: nat, t: Trust) {
    && (forall p :: p in t.polls && t.polls[p].Loading? ==> WasRead(ss, n, t.polls[p].done))
    && (forall v :: 1 <= v < |t.published| ==> CameFrom(w, ss, n, t.published[v]))
  }

  lemma ReadStays(ss: seq<State>, n: nat, done: seq<seq<byte>>)
    requires WasRead(ss, n, done) && n < |ss|
    ensures WasRead(ss, n + 1, done)
  {
    var at :| ReadAt(ss, n, done, at);
    assert ReadAt(ss, n + 1, done, at);
  }

  lemma CameFromStays(w: World, ss: seq<State>, n: nat, m: Material)
    requires CameFrom(w, ss, n, m) && n < |ss|
    ensures CameFrom(w, ss, n + 1, m)
  {
    var done, now :| |done| == 3 && WasRead(ss, n, done) && ParseOf(w.hash, w.decoders, done[0], done[1], done[2], now) == Ok(m);
    ReadStays(ss, n, done);
  }

  lemma NothingRead(ss: seq<State>, n: nat)
    requires n <= |ss|
    ensures WasRead(ss, n, [])
  {
    assert ReadAt(ss, n, [], []);
  }

  /** One file more, as it stands now. */
  lemma OneReadMore(ss: seq<State>, n: nat, done: seq<seq<byte>>, b: seq<byte>)
    requires WasRead(ss, n, done) && n < |ss| && |done| < 3 && FileAt(ss[n].trust.files, |done|) == Some(b)
    ensures WasRead(ss, n + 1, done + [b])
  {
    var at :| ReadAt(ss, n, done, at);
    assert ReadAt(ss, n + 1, done + [b], at + [n]);
  }

  /** A poll that loads after a step loaded before or has just begun to. */
  lemma LoadOfStep(w: World, ss: seq<State>, n: nat, l: Label, p: nat)
    requires n < |ss| && Traced(w, ss, n, ss[n].trust)
    requires var u := TrustAfter(w, ss[n].trust, l); p in u.polls && u.polls[p].Loading?
    ensures WasRead(ss, n + 1, TrustAfter(w, ss[n].trust, l).polls[p].done)
  {
    var t := ss[n].trust;
    if p in t.polls && t.polls[p].Loading? {
      var done := t.polls[p].done;
      ReadStays(ss, n, done);
      if l.Step? && l.poll == p {
        OneReadMore(ss, n, done, FileAt(t.files, |done|).value);
      }
    } else {
      NothingRead(ss, n + 1);
    }
  }

  /** A step publishes what its poll loaded, and one material at most. */
  lemma OnlyLoadsPublish(w: World, t: Trust, l: Label)
    requires TrustAfter(w, t, l).published != t.published
    ensures l.Step? && l.poll in t.polls && t.polls[l.poll].Loading? && |t.polls[l.poll].done| >= 3
    ensures var u, done, v := TrustAfter(w, t, l), t.polls[l.poll].done, |t.published|;
      && |u.published| == v + 1
      && ParseOf(w.hash, w.decoders, done[0], done[1], done[2], t.polls[l.poll].now) == Ok(u.published[v])
  {
  }

  /** So it is what that poll has read. */
  lemma PublicationOfStep(w: World, ss: seq<State>, n: nat, l: Label, v: nat)
    requires n < |ss| && Traced(w, ss, n, ss[n].trust) && 1 <= v < |TrustAfter(w, ss[n].trust, l).published|
    ensures CameFrom(w, ss, n + 1, TrustAfter(w, ss[n].trust, l).published[v])
  {
    var t, u := ss[n].trust, TrustAfter(w, ss[n].trust, l);
    OneMaterialMore(w, t, l);
    if v < |t.published| {
      CameFromStays(w, ss, n, t.published[v]);
    } else {
      OnlyLoadsPublish(w, t, l);
      ReadStays(ss, n, t.polls[l.poll].done);
    }
  }

  lemma {:induction false} EveryRunIsTraced(w: World, ls: seq<Label>, ss: seq<State>, n: nat)
    requires IsRun(w, ls, ss) && n < |ss|
    ensures Traced(w, ss, n, ss[n].trust)
  {
    if n == 0 {
      FirstState(w, ls, ss);
    } else {
      EveryRunIsTraced(w, ls, ss, n - 1);
      TrustStep(w, ls, ss, n - 1);
      forall p | p in ss[n].trust.polls && ss[n].trust.polls[p].Loading? ensures WasRead(ss, n, ss[n].trust.polls[p].done) {
        LoadOfStep(w, ss, n - 1, ls[n - 1], p);
      }
      forall v | 1 <= v < |ss[n].trust.published| ensures CameFrom(w, ss, n, ss[n].trust.published[v]) {
        PublicationOfStep(w, ss, n - 1, ls[n - 1], v);
      }
    }
  }

  /** Over every run: each material published after the first is what the decoders
      made, as a whole, of a certificate, a key and a bundle that were in their own
      files at three instants, in this order, before it was published. */
  lemma PublishedWasRead(w: World, ls: seq<Label>, ss: seq<State>, n: nat, v: nat)
    returns (cert: nat, key: nat, ca: nat, now: int)
    requires IsRun(w, ls, ss) && n < |ss| && 1 <= v < |ss[n].trust.published|
    ensures cert < key < ca < n
    ensures ss[cert].trust.files.cert.Some? && ss[key].trust.files.key.Some? && ss[ca].trust.files.ca.Some?
    ensures ParseOf(w.hash, w.decoders, ss[cert].trust.files.cert.value, ss[key].trust.files.key.value,
                    ss[ca].trust.files.ca.value, now) == Ok(ss[n].trust.published[v])
  {
    EveryRunIsTraced(w, ls, ss, n);
    cert, key, ca, now := Origin(w, ss, n, ss[n].trust.published[v]);
  }

  lemma Origin(w: World, ss: seq<State>, n: nat, m: Material) returns (cert: nat, key: nat, ca: nat, at: int)
    requires CameFrom(w, ss, n, m)
    ensures cert < key < ca < n <= |ss|
    ensures ss[cert].trust.files.cert.Some? && ss[key].trust.files.key.Some? && ss[ca].trust.files.ca.Some?
    ensures ParseOf(w.hash, w.decoders, ss[cert].trust.files.cert.value, ss[key].trust.files.key.value,
                    ss[ca].trust.files.ca.value, at) == Ok(m)
  {
    var done, now :| |done| == 3 && WasRead(ss, n, done) && ParseOf(w.hash, w.decoders, done[0], done[1], done[2], now) == Ok(m);
    var instants :| ReadAt(ss, n, done, instants);
    cert, key, ca, at := instants[0], instants[1], instants[2], now;
  }

  // ---- What a poll compares ----

  /** A poll that still hashes began at one instant and compares with the material
      that was in force then. */
  lemma {:induction false} HashesAgainstItsStart(w: World, ls: seq<Label>, ss: seq<State>, n: nat, p: nat) returns (b: nat)
    requires IsRun(w, ls, ss) && n < |ss| && p in ss[n].trust.polls && ss[n].trust.polls[p].Hashing?
    ensures b < n && ls[b] == Start(p) && p !in ss[b].trust.polls
    ensures ss[n].trust.polls[p].seen + 1 == |ss[b].trust.published|
    ensures |ss[n].trust.polls[p].done| <= 2
  {
    if n == 0 {
      FirstState(w, ls, ss);
      assert false;
    } else {
      TrustStep(w, ls, ss, n - 1);
      if p in ss[n - 1].trust.polls {
        PollsDoNotRestart(w, ss[n - 1].trust, ls[n - 1], p);
        b := HashesAgainstItsStart(w, ls, ss, n - 1, p);
      } else {
        b := n - 1;
        TrustGrows(w, ls, ss, b, b);
        OnlyStartsStart(w, ss[b].trust, ls[b], p);
      }
    }
  }

  lemma PollsDoNotRestart(w: World, t: Trust, l: Label, p: nat)
    requires p in t.polls && TrustAfter(w, t, l).polls[p].Hashing?
    ensures t.polls[p].Hashing? && TrustAfter(w, t, l).polls[p].seen == t.polls[p].seen
    ensures TrustAfter(w, t, l).polls[p].done == t.polls[p].done || |TrustAfter(w, t, l).polls[p].done| <= 2
  {
  }

  lemma OnlyStartsStart(w: World, t: Trust, l: Label, p: nat)
    requires p !in t.polls && p in TrustAfter(w, t, l).polls
    ensures l == Start(p) && TrustAfter(w, t, l).polls[p] == Hashing(Current(t), [])
  {
  }

  /** The third read decides: the poll is over, and nothing else changed, if and only
      if the three files hash to the digest of the material that was in force when
      the poll began; else it loads them. */
  lemma PollComparesWithItsStart(w: World, ls: seq<Label>, ss: seq<State>, n: nat, p: nat, now: int) returns (b: nat)
    requires IsRun(w, ls, ss) && n < |ls| && ls[n] == Step(p, now)
    requires p in ss[n].trust.polls && ss[n].trust.polls[p].Hashing? && |ss[n].trust.polls[p].done| == 2
    requires ss[n].trust.files.ca.Some?
    ensures b < n && ls[b] == Start(p) && ss[b].trust.published != []
    ensures var t, u, done := ss[n].trust, ss[n + 1].trust, ss[n].trust.polls[p].done;
      var same := w.hash(Frame(done[0], done[1], t.files.ca.value)) == ss[b].trust.published[Current(ss[b].trust)].digest;
      u == t.(polls := t.polls[p := if same then Over else Loading(now, [])])
  {
    b := HashesAgainstItsStart(w, ls, ss, n, p);
    TrustGrows(w, ls, ss, b, n);
    TrustStep(w, ls, ss, n);
    assert ss[n].trust.published[ss[n].trust.polls[p].seen] == ss[b].trust.published[Current(ss[b].trust)];
  }

  // ---- What a poll counts ----

  /** How a poll fails: a file that cannot be read, or three that do not parse. */
  ghost predicate Fails(w: World, t: Trust, l: Label) {
    && l.Step? && l.poll in t.polls
    && match t.polls[l.poll]
       case Hashing(_, done) => FileAt(t.files, |done|).None?
       case Loading(now, done) =>
         if |done| < 3 then FileAt(t.files, |done|).None?
         else ParseOf(w.hash, w.decoders, done[0], done[1], done[2], now).Err?
       case _ => false
  }

  /** The failures count the polls that failed since the last publication: each
      raises them by one and publishes nothing, a publication clears them, and
      nothing else touches them. */
  lemma FailuresSincePublication(w: World, t: Trust, l: Label)
    ensures var u := TrustAfter(w, t, l);
      && (Fails(w, t, l) ==> u == t.(failures := t.failures + 1, polls := t.polls[l.poll := Over]))
      && (u.published != t.published ==> u.failures == 0)
      && (!Fails(w, t, l) && u.published == t.published ==> u.failures == t.failures)
  {
    if TrustAfter(w, t, l).published != t.published {
      OnlyLoadsPublish(w, t, l);
    }
  }
}
