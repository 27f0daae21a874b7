/** The permitted inputs of one launch: what the envelope declares, what was
    staged for it and what is served from it. */
module Inputs {
  import opened Outcomes
  import opened Bytes
  import Envelope

  /** scope.DigestOf, as a parameter. */
  type Digest = seq<byte> -> string

  /** The value of an Inputs object. */
  datatype View = View(declared: map<string, string>, handles: map<string, string>, bytes: map<string, seq<byte>>)

  datatype StageError = NotDeclared | WrongDigest

  /** The declared digests, a later input overriding an earlier one. */
  function Declared(ins: seq<Envelope.Input>): map<string, string> {
    if ins == [] then map[] else
      var last := ins[|ins| - 1];
      Declared(ins[..|ins| - 1])[last.name := last.digest]
  }

  function Handles(ins: seq<Envelope.Input>): map<string, string> {
    if ins == [] then map[] else
      var last := ins[|ins| - 1];
      var before := Handles(ins[..|ins| - 1]);
      if last.handle != "" then before[last.name := last.handle] else before
  }

  function Fresh(e: Envelope.Record): View { View(Declared(e.inputs), Handles(e.inputs), map[]) }

  /** What staging bytes under a name does to the value and answers. */
  function Staged(digest: Digest, v: View, name: string, b: seq<byte>): (View, Option<StageError>) {
    if name !in v.declared then (v, Some(NotDeclared))
    else if digest(b) != v.declared[name] then (v, Some(WrongDigest))
    else (v.(bytes := v.bytes[name := b]), None)
  }

  class Inputs {
    var declared: map<string, string>
    var handles: map<string, string>
    var bytes: map<string, seq<byte>>

    ghost function Value(): View
      reads this
    {
      View(declared, handles, bytes)
    }

    /** NewInputs. */
    constructor (e: Envelope.Record)
      ensures Value() == Fresh(e)
    {
      declared, handles, bytes := map[], map[], map[];
      new;
      for i := 0 to |e.inputs|
        invariant declared == Declared(e.inputs[..i]) && handles == Handles(e.inputs[..i]) && bytes == map[]
      {
        var input := e.inputs[i];
        assert e.inputs[..i + 1][..i] == e.inputs[..i];
        declared := declared[input.name := input.digest];
        if input.handle != "" {
          handles := handles[input.name := input.handle];
        }
      }
      assert e.inputs[..|e.inputs|] == e.inputs;
    }

    method Handle(name: string) returns (h: Option<string>)
      ensures h == if name in handles then Some(handles[name]) else None
    {
      h := if name in handles then Some(handles[name]) else None;
    }

    /** The permitted names, each once, in no promised order. */
    method Names() returns (names: seq<string>)
      ensures (set n | n in names) == declared.Keys
      ensures forall i, j :: 0 <= i < j < |names| ==> names[i] != names[j]
    {
      names := [];
      var rest := declared.Keys;
      while rest != {}
        invariant rest <= declared.Keys
        invariant (set n | n in names) == declared.Keys - rest
        invariant forall i, j :: 0 <= i < j < |names| ==> names[i] != names[j]
        decreases rest
      {
        var n :| n in rest;
        assert (set m | m in names + [n]) == (set m | m in names) + {n};
        assert n !in set m | m in names;
        names := names + [n];
        rest := rest - {n};
      }
    }

    method Stage(digest: Digest, name: string, b: seq<byte>) returns (err: Option<StageError>)
      modifies this
      ensures (Value(), err) == Staged(digest, old(Value()), name, b)
    {
      if name !in declared {
        return Some(NotDeclared);
      }
      if digest(b) != declared[name] {
        return Some(WrongDigest);
      }
      bytes := bytes[name := b];
      return None;
    }

    method Get(name: string) returns (b: Option<seq<byte>>)
      ensures b == if name in bytes then Some(bytes[name]) else None
    {
      b := if name in bytes then Some(bytes[name]) else None;
    }
  }

  /** The promise over whole runs: only declared names, each with bytes of the
      declared digest and within the bound. */
  ghost predicate Faithful(digest: Digest, e: Envelope.Record, max: nat, v: View) {
    && v.declared == Declared(e.inputs) && v.handles == Handles(e.inputs)
    && v.bytes.Keys <= v.declared.Keys
    && forall n :: n in v.bytes ==> digest(v.bytes[n]) == v.declared[n] && |v.bytes[n]| <= max
  }

  lemma StagedIsFaithful(digest: Digest, e: Envelope.Record, max: nat, v: View, name: string, b: seq<byte>)
    requires Faithful(digest, e, max, v) && |b| <= max
    ensures Faithful(digest, e, max, Staged(digest, v, name, b).0)
  {
  }

  ghost function TotalSize(m: map<string, seq<byte>>): nat
    decreases |m|
  {
    if m == map[] then 0 else
      var n :| n in m;
      |m[n]| + TotalSize(m - {n})
  }

  lemma {:induction false} TotalSizeBound(m: map<string, seq<byte>>, max: nat)
    requires forall n :: n in m ==> |m[n]| <= max
    ensures TotalSize(m) <= |m| * max
    decreases |m|
  {
    if m != map[] {
      var n :| n in m && TotalSize(m) == |m[n]| + TotalSize(m - {n});
      var rest := m - {n};
      assert rest.Keys == m.Keys - {n};
      assert |rest| == |m| - 1;
      TotalSizeBound(rest, max);
      OneMore(|m|, max);
    }
  }

  lemma OneMore(k: nat, max: nat)
    requires k > 0
    ensures k * max == (k - 1) * max + max
  {
  }

  lemma ProductGrows(j: nat, k: nat, max: nat)
    requires j <= k
    ensures j * max <= k * max
  {
  }

  ghost predicate Named(ins: seq<Envelope.Input>, n: string) { exists i :: 0 <= i < |ins| && ins[i].name == n }

  lemma {:induction false} DeclaredCount(ins: seq<Envelope.Input>)
    ensures |Declared(ins)| <= |ins|
    ensures forall n :: n in Declared(ins) <==> Named(ins, n)
  {
    if ins != [] {
      var front, last := ins[..|ins| - 1], ins[|ins| - 1].name;
      DeclaredCount(front);
      assert Declared(ins).Keys == Declared(front).Keys + {last};
      forall n ensures Named(ins, n) <==> n == last || Named(front, n) {
        OneNameMore(ins, n);
      }
    }
  }

  lemma OneNameMore(ins: seq<Envelope.Input>, n: string)
    requires ins != []
    ensures Named(ins, n) <==> n == ins[|ins| - 1].name || Named(ins[..|ins| - 1], n)
  {
    var front := ins[..|ins| - 1];
    if i :| 0 <= i < |ins| && ins[i].name == n {
      assert i < |front| ==> front[i].name == n;
    }
    if i :| 0 <= i < |front| && front[i].name == n {
      assert ins[i].name == n;
    }
    if n == ins[|ins| - 1].name {
      assert ins[|ins| - 1].name == n;
    }
  }

  lemma {:induction false} SubsetSize<T>(a: set<T>, b: set<T>)
    requires a <= b
    ensures |a| <= |b|
  {
    if a != {} {
      var x :| x in a;
      SubsetSize(a - {x}, b - {x});
    }
  }

  /** A well-formed envelope bounds all that is ever staged. */
  lemma StagedSizeIsBounded(digest: Digest, e: Envelope.Record, max: nat, v: View)
    requires Envelope.WellFormed(e) && Faithful(digest, e, max, v)
    ensures TotalSize(v.bytes) <= 64 * max
  {
    TotalSizeBound(v.bytes, max);
    DeclaredCount(e.inputs);
    SubsetSize(v.bytes.Keys, v.declared.Keys);
    assert |v.bytes.Keys| <= 64;
    ProductGrows(|v.bytes|, 64, max);
  }

  /** Names of a well-formed envelope are unique, so each input declares its own
      digest, and Handle answers its own handle if it has one and nothing else. */
  lemma {:induction false} DeclaredExactly(ins: seq<Envelope.Input>, i: nat)
    requires Envelope.WellFormedInputs(ins) && i < |ins|
    ensures ins[i].name in Declared(ins) && Declared(ins)[ins[i].name] == ins[i].digest
    ensures if ins[i].handle != "" then ins[i].name in Handles(ins) && Handles(ins)[ins[i].name] == ins[i].handle
            else ins[i].name !in Handles(ins)
  {
    var front := ins[..|ins| - 1];
    if i < |front| {
      DeclaredExactly(front, i);
    } else {
      HandlesAreNamed(front, ins[i].name);
      assert !Named(front, ins[i].name);
    }
  }

  lemma {:induction false} HandlesAreNamed(ins: seq<Envelope.Input>, n: string)
    ensures n in Handles(ins) ==> Named(ins, n)
  {
    if ins != [] {
      HandlesAreNamed(ins[..|ins| - 1], n);
      OneNameMore(ins, n);
    }
  }

  /** What was staged is what Get answers: a staging that is taken changes this
      name only, to these bytes; one that is refused changes nothing; and no other
      bytes are ever taken for the name. */
  lemma StageThenGet(digest: Digest, v: View, name: string, b: seq<byte>, other: string)
    ensures var (after, err) := Staged(digest, v, name, b);
      && (err.None? <==> name in v.declared && v.declared[name] == digest(b))
      && (err.None? ==> name in after.bytes && after.bytes[name] == b)
      && (err.Some? || other != name ==>
            (other in after.bytes <==> other in v.bytes) && (other in v.bytes ==> after.bytes[other] == v.bytes[other]))
      && after.declared == v.declared && after.handles == v.handles
  {
  }
}
