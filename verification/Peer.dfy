/** The second peer binding: tokens and proofs derived from the launch secret,
    and the guard every request passes. HMAC-SHA256 is a parameter: any
    function of a key and a message. */
module Peer {
  import opened Outcomes
  import opened Bytes
  import opened Refusals

  /** The shape of HMAC-SHA256. */
  type Hmac = m: (seq<byte>, string) -> seq<byte> | forall k, s :: |m(k, s)| == 32
    witness (k, s) => ZEROS

  /** Two keyed messages with one code. */
  ghost predicate MacCollide(m: Hmac, k: seq<byte>, s: string, j: seq<byte>, t: string) {
    (k != j || s != t) && m(k, s) == m(j, t)
  }

  const TOKEN_PREFIX := "anvilkit/peer-token/v1/"
  const PROOF_PREFIX := "anvilkit/sidecar-proof/v1/"

  datatype Role = RoleTrusted | RoleCandidate

  function RoleName(r: Role): string { if r.RoleTrusted? then "trusted" else "candidate" }

  predicate LowerHex(s: string, n: nat) { |s| == n && LowerHexText(s) }

  method CheckLowerHex(s: string, n: nat) returns (ok: bool)
    ensures ok <==> LowerHex(s, n)
  {
    if |s| != n { return false; }
    for i := 0 to |s|
      invariant forall j :: 0 <= j < i ==> IsLowerHex(s[j])
    {
      if !IsLowerHex(s[i]) { return false; }
    }
    return true;
  }

  predicate ValidNonce(s: string) { LowerHex(s, 32) }

  /** A secret is accepted exactly when it is the printed form of 32 bytes, and
      then it decodes to them. */
  method ParseSecret(s: string) returns (secret: Option<seq<byte>>)
    ensures secret.Some? <==> LowerHex(s, 64)
    ensures secret.Some? ==> |secret.value| == 32 && HexEncode(secret.value) == s
  {
    var ok := CheckLowerHex(s, 64);
    if !ok { return None; }
    LowerHexDecodes(s);
    return Some(HexDecode(s).bytes);
  }

  function Token(m: Hmac, secret: seq<byte>, role: Role): string {
    HexEncode(m(secret, TOKEN_PREFIX + RoleName(role)))
  }

  function Proof(m: Hmac, token: string, nonce: string): Option<string> {
    match HexDecode(token)
    case BadHex => None
    case Decoded(key) =>
      if |key| != 32 || !ValidNonce(nonce) then None else Some(HexEncode(m(key, PROOF_PREFIX + nonce)))
  }

  /** A token always decodes to the 32 bytes it was printed from, so a valid
      nonce always has a proof. */
  lemma TokenAlwaysProves(m: Hmac, secret: seq<byte>, role: Role, nonce: string)
    requires ValidNonce(nonce)
    ensures Proof(m, Token(m, secret, role), nonce)
         == Some(HexEncode(m(m(secret, TOKEN_PREFIX + RoleName(role)), PROOF_PREFIX + nonce)))
  {
    HexRoundTrip(m(secret, TOKEN_PREFIX + RoleName(role)));
  }

  /** The key a token stands for. */
  function TokenKey(m: Hmac, secret: seq<byte>, role: Role): seq<byte> { m(secret, TOKEN_PREFIX + RoleName(role)) }

  /** The two sockets never share a token, unless its two messages collide. */
  lemma TokensNameTheRole(m: Hmac, secret: seq<byte>, r: Role, q: Role)
    ensures Token(m, secret, r) == Token(m, secret, q) <==>
            r == q || MacCollide(m, secret, TOKEN_PREFIX + RoleName(r), secret, TOKEN_PREFIX + RoleName(q))
    ensures Token(m, secret, r) == Token(m, secret, q) <==> TokenKey(m, secret, r) == TokenKey(m, secret, q)
  {
    var a, b := TOKEN_PREFIX + RoleName(r), TOKEN_PREFIX + RoleName(q);
    HexRoundTrip(m(secret, a));
    HexRoundTrip(m(secret, b));
    assert a[|TOKEN_PREFIX|..] == RoleName(r) && b[|TOKEN_PREFIX|..] == RoleName(q);
  }

  /** A proof names the role and the nonce it answers, unless the tokens' or the
      proofs' own messages collide. */
  lemma ProofsNameRoleAndNonce(m: Hmac, secret: seq<byte>, r: Role, nonce: string, q: Role, other: string)
    requires ValidNonce(nonce) && ValidNonce(other)
    ensures r == q && nonce == other ==> Proof(m, Token(m, secret, r), nonce) == Proof(m, Token(m, secret, q), other)
    ensures Proof(m, Token(m, secret, r), nonce) == Proof(m, Token(m, secret, q), other) ==>
      || (r == q && nonce == other)
      || MacCollide(m, secret, TOKEN_PREFIX + RoleName(r), secret, TOKEN_PREFIX + RoleName(q))
      || MacCollide(m, TokenKey(m, secret, r), PROOF_PREFIX + nonce, TokenKey(m, secret, q), PROOF_PREFIX + other)
  {
    TokenAlwaysProves(m, secret, r, nonce);
    TokenAlwaysProves(m, secret, q, other);
    TokensNameTheRole(m, secret, r, q);
    HexRoundTrip(m(TokenKey(m, secret, r), PROOF_PREFIX + nonce));
    HexRoundTrip(m(TokenKey(m, secret, q), PROOF_PREFIX + other));
    assert (PROOF_PREFIX + nonce)[|PROOF_PREFIX|..] == nonce && (PROOF_PREFIX + other)[|PROOF_PREFIX|..] == other;
  }

  /** The headers the guard reads and the peer the connection is bound to. */
  datatype Head = Head(nonce: string, token: string)

  datatype GuardRefusal = UidMismatch | NonceInvalid | TokenMismatch | InternalError

  function GuardFailure(g: GuardRefusal): Failure {
    match g
    case UidMismatch => Failure(403, "PEER_UID_MISMATCH", false)
    case NonceInvalid => Failure(400, "PEER_NONCE_INVALID", false)
    case TokenMismatch => Failure(403, "PEER_TOKEN_MISMATCH", false)
    case InternalError => Failure(500, "INTERNAL", false)
  }

  datatype Verdict = Pass(proof: string) | Turn(refusal: GuardRefusal)

  function Guard(m: Hmac, expectedUid: nat, token: string, peer: Option<nat>, head: Head): Verdict {
    if peer.None? || peer.value != expectedUid then Turn(UidMismatch)
    else if !ValidNonce(head.nonce) then Turn(NonceInvalid)
    else if head.token != token then Turn(TokenMismatch)
    else
      match Proof(m, token, head.nonce)
      case None => Turn(InternalError)
      case Some(proof) => Pass(proof)
  }

  /** The response a guarded request gets so far: its proof header and, once
      something answered, the failure written. */
  class ResponseWriter {
    var proof: Option<string>
    var written: Option<Failure>

    constructor ()
      ensures proof == None && written == None
    {
      proof, written := None, None;
    }

    method Fail(status: nat, code: string)
      modifies this`written
      ensures written == Some(Failure(status, code, false))
    {
      written := Some(Failure(status, code, false));
    }
  }

  /** Server.guard: the route runs exactly when the guard passes, the proof is on
      the response exactly then, and a refusal is what Guard answers. */
  method GuardRequest(m: Hmac, expectedUid: nat, token: string, peer: Option<nat>, head: Head, w: ResponseWriter)
    returns (serve: bool)
    requires w.proof == None && w.written == None
    modifies w
    ensures serve <==> Guard(m, expectedUid, token, peer, head).Pass?
    ensures serve ==> w.proof == Some(Guard(m, expectedUid, token, peer, head).proof) && w.written == None
    ensures !serve ==> w.proof == None && w.written == Some(GuardFailure(Guard(m, expectedUid, token, peer, head).refusal))
  {
    if peer.None? || peer.value != expectedUid {
      w.Fail(403, "PEER_UID_MISMATCH");
      return false;
    }
    var valid := CheckLowerHex(head.nonce, 32);
    if !valid {
      w.Fail(400, "PEER_NONCE_INVALID");
      return false;
    }
    if head.token != token {
      w.Fail(403, "PEER_TOKEN_MISMATCH");
      return false;
    }
    var proof := Proof(m, token, head.nonce);
    if proof.None? {
      w.Fail(500, "INTERNAL");
      return false;
    }
    w.proof := proof;
    return true;
  }

  /** For a token of the launch secret the guard passes exactly the requests of
      the expected peer with a valid nonce and that token, and blames the first of
      the three that is missing; its internal error cannot happen. */
  lemma GuardPassesExactly(m: Hmac, uid: nat, secret: seq<byte>, role: Role, peer: Option<nat>, head: Head)
    ensures var v := Guard(m, uid, Token(m, secret, role), peer, head);
      && (v.Pass? <==> peer == Some(uid) && ValidNonce(head.nonce) && head.token == Token(m, secret, role))
      && (v == Turn(UidMismatch) <==> peer != Some(uid))
      && (v == Turn(NonceInvalid) <==> peer == Some(uid) && !ValidNonce(head.nonce))
      && (v.Turn? ==> !v.refusal.InternalError?)
  {
    if ValidNonce(head.nonce) {
      TokenAlwaysProves(m, secret, role, head.nonce);
    }
  }
}
