/** The sockets: a listener that hands out only connections of the expected
    UID, and connections that refuse ancillary data. */
module Sockets {
  import opened Outcomes
  import opened Bytes

  /** What accepting answers next: a connection with the peer the kernel
      reports (None when it reports none), or an error of the listener. */
  datatype Offer = Connection(id: nat, peer: Option<nat>) | ListenerError

  datatype Accepted = Conn(id: nat, uid: nat) | Failed | Waits

  predicate Matches(o: Offer, uid: nat) { o.Connection? && o.peer == Some(uid) }

  /** How many offers Accept passes over: the mismatches in front of the first
      match or error. */
  function Passed(offers: seq<Offer>, uid: nat): (n: nat)
    ensures n <= |offers|
    ensures forall i :: 0 <= i < n ==> offers[i].Connection? && !Matches(offers[i], uid)
    ensures n < |offers| ==> offers[n].ListenerError? || Matches(offers[n], uid)
  {
    if offers == [] || offers[0].ListenerError? || Matches(offers[0], uid) then 0
    else 1 + Passed(offers[1..], uid)
  }

  function Ids(offers: seq<Offer>): seq<nat>
    requires forall o :: o in offers ==> o.Connection?
  {
    if offers == [] then [] else [offers[0].id] + Ids(offers[1..])
  }

  lemma {:induction false} IdsOfMore(offers: seq<Offer>, o: Offer)
    requires o.Connection? && forall x :: x in offers ==> x.Connection?
    ensures Ids(offers + [o]) == Ids(offers) + [o.id]
  {
    if offers == [] {
      assert [o][1..] == [];
    } else {
      assert (offers + [o])[1..] == offers[1..] + [o];
      IdsOfMore(offers[1..], o);
    }
  }

  class Listener {
    const expectedUid: nat
    /** The connections closed, in order: each once per refusal. */
    var closed: seq<nat>
    /** What the kernel still has to offer. */
    var pending: seq<Offer>

    constructor (uid: nat, offers: seq<Offer>)
      ensures expectedUid == uid && closed == [] && pending == offers
    {
      expectedUid, closed, pending := uid, [], offers;
    }

    /** Listener.Accept: the first connection of the expected UID, after closing
        every other one in front of it exactly once and nothing else. */
    method Accept() returns (c: Accepted)
      modifies this
      ensures var n := Passed(old(pending), expectedUid);
        && closed == old(closed) + Ids(old(pending)[..n])
        && c == (if n == |old(pending)| then Waits
                 else if old(pending)[n].ListenerError? then Failed
                 else Conn(old(pending)[n].id, expectedUid))
        && pending == (if n == |old(pending)| then [] else old(pending)[n + 1..])
    {
      ghost var n := 0;
      ghost var all := pending;
      while pending != []
        invariant n <= |all| && pending == all[n..]
        invariant forall i :: 0 <= i < n ==> all[i].Connection? && !Matches(all[i], expectedUid)
        invariant closed == old(closed) + Ids(all[..n])
        decreases |pending|
      {
        var o := pending[0];
        pending := pending[1..];
        if o.ListenerError? {
          PassedIs(all, expectedUid, n);
          return Failed;
        }
        if o.peer == None || o.peer.value != expectedUid {
          closed := closed + [o.id];
          IdsOfMore(all[..n], o);
          assert all[..n + 1] == all[..n] + [o];
          n := n + 1;
          continue;
        }
        PassedIs(all, expectedUid, n);
        return Conn(o.id, expectedUid);
      }
      PassedIs(all, expectedUid, n);
      return Waits;
    }
  }

  lemma {:induction false} PassedIs(offers: seq<Offer>, uid: nat, n: nat)
    requires n <= |offers|
    requires forall i :: 0 <= i < n ==> offers[i].Connection? && !Matches(offers[i], uid)
    requires n < |offers| ==> offers[n].ListenerError? || Matches(offers[n], uid)
    ensures Passed(offers, uid) == n
  {
    if n > 0 {
      PassedIs(offers[1..], uid, n - 1);
    }
  }

  /** One receive: the bytes, whether control data came with them or was cut
      off, and whether the transport failed. */
  datatype Receive = Receive(bytes: seq<byte>, ancillary: bool)

  datatype ReadResult = Bytes(b: seq<byte>) | Delegation | Ended

  /** The bytes a connection ever delivers: those in front of the first receive
      with ancillary data. */
  function Delivered(rs: seq<Receive>): seq<byte> {
    if rs == [] || rs[0].ancillary then [] else rs[0].bytes + Delivered(rs[1..])
  }

  class Connection {
    var open: bool
    var incoming: seq<Receive>

    constructor (rs: seq<Receive>)
      ensures open && incoming == rs
    {
      open, incoming := true, rs;
    }

    /** Conn.Read: ancillary data closes the connection and delivers nothing. */
    method Read() returns (r: ReadResult)
      modifies this
      ensures !old(open) || old(incoming) == [] ==> r == Ended && open == old(open) && incoming == old(incoming)
      ensures old(open) && old(incoming) != [] ==>
        && incoming == old(incoming)[1..]
        && open == !old(incoming)[0].ancillary
        && r == (if old(incoming)[0].ancillary then Delegation else Bytes(old(incoming)[0].bytes))
    {
      if !open || incoming == [] {
        return Ended;
      }
      var m := incoming[0];
      incoming := incoming[1..];
      if m.ancillary {
        open := false;
        return Delegation;
      }
      return Bytes(m.bytes);
    }

    /** A handler that reads until the end gets exactly the bytes in front of
        the first ancillary data, and the connection is closed iff there was
        any. */
    method ReadAll() returns (b: seq<byte>)
      requires open
      modifies this
      ensures b == Delivered(old(incoming))
      ensures open <==> forall r :: r in old(incoming) ==> !r.ancillary
    {
      b := [];
      ghost var n := 0;
      ghost var all := incoming;
      while open && incoming != []
        invariant n <= |all| && incoming == all[n..]
        invariant open ==> Delivered(all) == b + Delivered(incoming)
        invariant !open ==> Delivered(all) == b && exists r :: r in all && r.ancillary
        invariant open ==> forall i :: 0 <= i < n ==> !all[i].ancillary
        decreases open, |incoming|
      {
        assert incoming[0] == all[n];
        var r := Read();
        if r.Bytes? {
          b := b + r.b;
        }
        n := n + 1;
      }
    }
  }
}
