/** The launch envelope: which decoded records the sidecar accepts. */
module Envelope {
  import opened Outcomes
  import opened Decimal
  import Bytes

  predicate IsLowerAlnum(c: char) { '0' <= c <= '9' || 'a' <= c <= 'z' }

  predicate IsAlnum(c: char) { IsLowerAlnum(c) || 'A' <= c <= 'Z' }

  predicate IsIdChar(c: char) { IsAlnum(c) || c == '.' || c == '_' || c == ':' || c == '-' }

  /** `[a-z0-9]([-a-z0-9]{0,61}[a-z0-9])?`: a DNS label. */
  predicate Label(s: string) {
    1 <= |s| <= 63 && IsLowerAlnum(s[0]) && IsLowerAlnum(s[|s| - 1])
    && forall i :: 0 <= i < |s| ==> IsLowerAlnum(s[i]) || s[i] == '-'
  }

  /** `[A-Za-z0-9][A-Za-z0-9._:-]*` of at most 128 characters. */
  predicate Id(s: string) {
    1 <= |s| <= 128 && IsAlnum(s[0]) && forall i :: 0 <= i < |s| ==> IsIdChar(s[i])
  }

  /** `(0|[1-9][0-9]{0,19})`. */
  predicate Sequence(s: string) {
    1 <= |s| <= 20 && (forall i :: 0 <= i < |s| ==> IsDigit(s[i])) && (s[0] == '0' ==> |s| == 1)
  }

  /** `[a-z][a-z0-9-]{0,63}`. */
  predicate InputName(s: string) {
    1 <= |s| <= 64 && 'a' <= s[0] <= 'z' && forall i :: 0 <= i < |s| ==> IsLowerAlnum(s[i]) || s[i] == '-'
  }

  /** `sha256:[0-9a-f]{64}`. */
  predicate DigestText(s: string) {
    |s| == 71 && s[..7] == "sha256:" && forall i :: 7 <= i < 71 ==> Bytes.IsLowerHex(s[i])
  }

  /** `[A-Z][A-Za-z0-9]{0,63}`. */
  predicate PuckType(s: string) {
    1 <= |s| <= 64 && 'A' <= s[0] <= 'Z' && forall i :: 0 <= i < |s| ==> IsAlnum(s[i])
  }

  /** Go's len: bytes of UTF-8, not characters. */
  function ByteLength(s: string): nat {
    if s == [] then 0 else
      var n := s[0] as int;
      (if n < 0x80 then 1 else if n < 0x800 then 2 else if n < 0x10000 then 3 else 4) + ByteLength(s[1..])
  }

  datatype Input = Input(name: string, digest: string, handle: string)

  datatype Component = Component(componentId: string, puckType: string, packageName: string, sourceRevision: string)

  datatype Timestamp = NotATime | Time(at: nat, utc: bool)

  datatype Record = Record(schemaVersion: int, launchId: string, launchKey: string, operationId: string,
                           attemptId: string, profileId: string, profileRevision: string, jobKind: string,
                           executionEpoch: string, launchEpoch: string, deadline: Timestamp,
                           component: Option<Component>, inputs: seq<Input>)

  /** What the strict decoder answers. */
  datatype Raw = Undecodable | TrailingData | Decoded(record: Record)

  datatype Defect =
    | BadJson | Trailing | BadVersion | BadId | BadLaunchKey | BadSequence | UnknownJobKind | BadDeadline
    | BadComponent | TooManyInputs | BadInput

  const JOB_KINDS := {"codegen", "validator", "preview", "parser", "migration"}

  /** The source revision always; the allocated identity whole or not at all. */
  ghost predicate WellFormedComponent(c: Component) {
    Sequence(c.sourceRevision)
    && ((c.componentId == "" && c.puckType == "" && c.packageName == "")
        || (c.componentId != "" && c.puckType != "" && c.packageName != "" && Id(c.componentId)
            && PuckType(c.puckType) && ByteLength(c.packageName) <= 214))
  }

  ghost predicate WellFormedInputs(ins: seq<Input>) {
    && (forall i :: 0 <= i < |ins| ==>
          InputName(ins[i].name) && DigestText(ins[i].digest) && ByteLength(ins[i].handle) <= 256)
    && forall i, j :: 0 <= i < j < |ins| ==> ins[i].name != ins[j].name
  }

  ghost predicate WellFormed(e: Record) {
    && e.schemaVersion == 1
    && Id(e.launchId) && Id(e.operationId) && Id(e.attemptId) && Id(e.profileId)
    && Label(e.launchKey)
    && Sequence(e.profileRevision) && Sequence(e.executionEpoch) && Sequence(e.launchEpoch)
    && e.jobKind in JOB_KINDS
    && e.deadline.Time? && e.deadline.utc
    && (e.component.Some? ==> WellFormedComponent(e.component.value))
    && |e.inputs| <= 64
    && WellFormedInputs(e.inputs)
  }

  method CheckComponent(c: Component) returns (ok: bool)
    ensures ok <==> WellFormedComponent(c)
  {
    var fields := [c.componentId, c.puckType, c.packageName];
    var named := 0;
    for i := 0 to 3
      invariant 0 <= named <= i
      invariant named == 0 <==> forall j :: 0 <= j < i ==> fields[j] == ""
      invariant named == i <==> forall j :: 0 <= j < i ==> fields[j] != ""
    {
      if fields[i] != "" {
        named := named + 1;
      }
    }
    assert named == 0 <==> fields[0] == "" && fields[1] == "" && fields[2] == "";
    assert named == 3 <==> fields[0] != "" && fields[1] != "" && fields[2] != "";
    ok := !(!Sequence(c.sourceRevision) || (named != 0 && named != 3)
            || (named == 3 && (!Id(c.componentId) || !PuckType(c.puckType) || ByteLength(c.packageName) > 214)));
  }

  method CheckInputs(ins: seq<Input>) returns (ok: bool)
    ensures ok <==> WellFormedInputs(ins)
  {
    var seen: set<string> := {};
    for i := 0 to |ins|
      invariant WellFormedInputs(ins[..i])
      invariant forall n :: n in seen <==> exists j :: 0 <= j < i && ins[j].name == n
    {
      var input := ins[i];
      assert ins[..i + 1] == ins[..i] + [input];
      if !InputName(input.name) || !DigestText(input.digest) || ByteLength(input.handle) > 256 || input.name in seen {
        return false;
      }
      seen := seen + {input.name};
    }
    assert ins[..|ins|] == ins;
    return true;
  }

  /** envelope.Parse over the decoder's answer: an envelope is accepted exactly
      when it is well formed, unchanged, and the first broken rule names the
      defect. */
  method Parse(raw: Raw) returns (r: Result<Record, Defect>)
    ensures r.Ok? <==> raw.Decoded? && WellFormed(raw.record)
    ensures r.Ok? ==> r.value == raw.record
    ensures r.Err? && raw.Decoded? ==> !r.error.BadJson? && !r.error.Trailing?
    ensures r == Err(BadInput) ==> raw.Decoded? && !WellFormedInputs(raw.record.inputs)
    ensures r == Err(BadComponent)
       ==> raw.Decoded? && raw.record.component.Some? && !WellFormedComponent(raw.record.component.value)
  {
    if raw.Undecodable? { return Err(BadJson); }
    if raw.TrailingData? { return Err(Trailing); }
    var e := raw.record;
    if e.schemaVersion != 1 { return Err(BadVersion); }
    if !Id(e.launchId) || !Id(e.operationId) || !Id(e.attemptId) || !Id(e.profileId) { return Err(BadId); }
    if !Label(e.launchKey) { return Err(BadLaunchKey); }
    if !Sequence(e.profileRevision) || !Sequence(e.executionEpoch) || !Sequence(e.launchEpoch) { return Err(BadSequence); }
    if e.jobKind !in JOB_KINDS { return Err(UnknownJobKind); }
    if !e.deadline.Time? || !e.deadline.utc { return Err(BadDeadline); }
    if e.component.Some? {
      var whole := CheckComponent(e.component.value);
      if !whole { return Err(BadComponent); }
    }
    if |e.inputs| > 64 { return Err(TooManyInputs); }
    var typed := CheckInputs(e.inputs);
    if !typed { return Err(BadInput); }
    return Ok(e);
  }

  /** The sequences are exactly the canonical numerals below 10^20, so every
      64-bit unsigned epoch has one. */
  lemma SequencesAreNumbers(s: string)
    ensures Sequence(s) ==> Canonical(s) && Value(s) < Power10(20)
    ensures Canonical(s) && Value(s) < Power10(20) ==> Sequence(s)
  {
    if Sequence(s) {
      assert Canonical(s) by { assert s[0] == '0' ==> s == "0"; }
      PrintOfValue(s);
      PrintLength(Value(s), 20);
    }
    if Canonical(s) {
      PrintOfValue(s);
      PrintLength(Value(s), 20);
      assert forall i :: 0 <= i < |s| ==> s[i] in s;
    }
  }

  lemma EverySixtyFourBitEpochHasASequence(n: nat)
    requires n < 0x1_0000_0000_0000_0000
    ensures Sequence(Print(n)) && Value(Print(n)) == n
  {
    ValueOfPrint(n);
    assert Power10(4) == 10_000;
    PowersMultiply(4, 4);
    PowersMultiply(4, 8);
    PowersMultiply(8, 12);
    assert Power10(20) == 100_000_000_000_000_000_000;
    SequencesAreNumbers(Print(n));
  }

  lemma {:induction false} PowersMultiply(j: nat, k: nat)
    ensures Power10(j + k) == Power10(j) * Power10(k)
  {
    if j > 0 {
      PowersMultiply(j - 1, k);
      assert Power10(j + k) == 10 * Power10(j - 1 + k);
      assert 10 * (Power10(j - 1) * Power10(k)) == (10 * Power10(j - 1)) * Power10(k);
    }
  }
}
